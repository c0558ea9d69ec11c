/**
 * The table lookups of app/src/lib/chords/Chord.ts: `transposeKey`,
 * `getInterval` and `getNoteFromInterval`, and the degree map `getNotes`
 * builds.
 */
module ChordTheory {
  import opened Wrappers
  import opened JsText
  import opened NoteTables

  // ---------------------------------------------------------------- transposeKey

  /**
   * The body of `transposeKey` once the table is chosen: the entry
   * `(index + halfsteps + 12) % 12` of `notes`, with JavaScript's truncating
   * remainder. A negative index reads past the array (`undefined`), which is
   * `None` here; a name missing from the table is returned as it is.
   */
  function Shift(notes: seq<string>, key: string, halfsteps: int): Option<string>
    requires |notes| == 12
  {
    var index := IndexOf(notes, key);
    if index == -1 then Some(key)
    else
      var newIndex := JsRem(index + halfsteps + 12, 12);
      if newIndex < 0 then None else Some(notes[newIndex])
  }

  /** `transposeKey`: the shift in the flat table when the key holds a 'b', else in the sharp one. */
  function TransposeKey(key: string, halfsteps: int): Option<string>
  {
    Shift(TableFor(key), key, halfsteps)
  }

  /** `(s + h + 12) % 12 == (s + h) % 12` once the dividend is not negative. */
  lemma ShiftRem(s: int, h: int)
    requires s + h + 12 >= 0
    ensures JsRem(s + h + 12, 12) == (s + h) % 12
  {
    var r := (s + h) % 12;
    var q := (s + h) / 12;
    ModOfMultiple(s + h + 12, 12, q + 1, r);
  }

  /** The entry at `i` moves to the entry at `(i + h) % 12`. */
  lemma ShiftAt(notes: seq<string>, i: int, h: int)
    requires |notes| == 12 && Distinct(notes)
    requires 0 <= i < 12 && h >= -12
    ensures Shift(notes, notes[i], h) == Some(notes[(i + h) % 12])
  {
    IndexOfDistinct(notes, i);
    ShiftRem(i, h);
  }

  /** A name found in the table gives `undefined` exactly when the dividend is negative and not a multiple of 12. */
  lemma ShiftUndefined(notes: seq<string>, key: string, h: int)
    requires |notes| == 12 && 0 <= IndexOf(notes, key)
    ensures var a := IndexOf(notes, key) + h + 12;
      Shift(notes, key, h).None? <==> a < 0 && a % 12 != 0
  {
  }

  /** A name outside both tables is returned unchanged. */
  lemma TransposeUnknown(key: string, halfsteps: int)
    requires NoteToSemitone(key) == -1
    ensures TransposeKey(key, halfsteps) == Some(key)
  {
    TableIndexIsSemitone(key);
  }

  /** Transposing by nothing changes nothing. */
  lemma TransposeZero(key: string)
    ensures TransposeKey(key, 0) == Some(key)
  {
    var notes := TableFor(key);
    var i := IndexOf(notes, key);
    if i != -1 {
      IndexOfHolds(notes, key);
      assert JsRem(i + 12, 12) == i by {
        ModOfMultiple(i + 12, 12, 1, i);
      }
      assert Shift(notes, key, 0) == Some(notes[i]);
    }
  }

  /**
   * From 12 semitones down on, the result is the entry of the key's own
   * table `halfsteps` places on, modulo 12, and so its semitone is the key's
   * moved by `halfsteps`.
   */
  lemma TransposeSemitone(key: string, halfsteps: int)
    requires NoteToSemitone(key) >= 0 && halfsteps >= -12
    ensures TransposeKey(key, halfsteps) == Some(TableFor(key)[(NoteToSemitone(key) + halfsteps) % 12])
    ensures NoteToSemitone(TransposeKey(key, halfsteps).value) == (NoteToSemitone(key) + halfsteps) % 12
  {
    var notes := TableFor(key);
    var i := IndexOf(notes, key);
    TableIndexIsSemitone(key);
    IndexOfHolds(notes, key);
    TablesDistinct();
    TablesSpell();
    ShiftAt(notes, i, halfsteps);
    assert TransposeKey(key, halfsteps).value == notes[(i + halfsteps) % 12];
    PitchesAt(notes, i, (i + halfsteps) % 12, halfsteps, key, TransposeKey(key, halfsteps).value);
  }

  /**
   * Two transpositions by `a` and then `b`, each from 12 semitones down on,
   * land on the semitone of one transposition by `a + b`. The spelling may
   * differ: see TransposeFlatUp and TransposeNaturalDown.
   */
  lemma TransposeCompose(key: string, a: int, b: int) returns (k: string, m: string)
    requires NoteToSemitone(key) >= 0 && a >= -12 && b >= -12
    ensures TransposeKey(key, a) == Some(k) && TransposeKey(k, b) == Some(m)
    ensures NoteToSemitone(m) == (NoteToSemitone(key) + a + b) % 12
  {
    k := SemitoneStep(key, a);
    m := SemitoneStep(k, b);
    SemitonesAdd(key, k, m, a, b);
  }

  /** One transposition from 12 semitones down on, with its result named. */
  lemma SemitoneStep(key: string, h: int) returns (k: string)
    requires NoteToSemitone(key) >= 0 && h >= -12
    ensures TransposeKey(key, h) == Some(k)
    ensures NoteToSemitone(k) == (NoteToSemitone(key) + h) % 12
  {
    TransposeSemitone(key, h);
    k := TransposeKey(key, h).value;
  }

  /** Two steps of `a` and `b` semitones, each reduced modulo 12, make one step of `a + b`. */
  lemma SemitonesAdd(key: string, k: string, m: string, a: int, b: int)
    requires NoteToSemitone(k) == (NoteToSemitone(key) + a) % 12
    requires NoteToSemitone(m) == (NoteToSemitone(k) + b) % 12
    ensures NoteToSemitone(m) == (NoteToSemitone(key) + a + b) % 12
  {
    RemAdd(NoteToSemitone(key), a, b, NoteToSemitone(k), NoteToSemitone(m));
  }

  /** Reducing modulo 12 between two additions changes nothing. */
  lemma RemAdd(s: int, a: int, b: int, x: int, y: int)
    requires x == (s + a) % 12 && y == (x + b) % 12
    ensures y == (s + a + b) % 12
  {
    ModOfMultiple(s + a + b, 12, (s + a) / 12 + (x + b) / 12, y);
  }

  /**
   * The result is undefined exactly when `index + halfsteps + 12` is
   * negative and not a multiple of 12: JavaScript's `%` keeps the sign.
   */
  lemma TransposeUndefined(key: string, halfsteps: int)
    requires NoteToSemitone(key) >= 0
    ensures var a := NoteToSemitone(key) + halfsteps + 12;
      TransposeKey(key, halfsteps).None? <==> a < 0 && a % 12 != 0
  {
    TableIndexIsSemitone(key);
    ShiftUndefined(TableFor(key), key, halfsteps);
  }

  /** C is index 3: 16 semitones down reads index -1, and 15 down wraps to A. */
  lemma TransposeFarDown()
    ensures TransposeKey("C", -16) == None
    ensures TransposeKey("C", -15) == Some("A")
  {
    assert IndexOf(NotesUp, "C") == 3 by {
      TablesDistinct();
      IndexOfDistinct(NotesUp, 3);
    }
  }

  /** The spelling is not kept in general: Bb up one is B... */
  lemma TransposeFlatUp()
    ensures TransposeKey("Bb", 1) == Some("B")
  {
    TablesDistinct();
    ShiftAt(NotesDown, 1, 1);
  }

  /** ...and B down one is A#. */
  lemma TransposeNaturalDown()
    ensures TransposeKey("B", -1) == Some("A#")
  {
    TablesDistinct();
    ShiftAt(NotesUp, 2, -1);
  }

  // ---------------------------------------------------------------- getInterval

  /**
   * The body of `getInterval` once both tables are chosen: semitones from
   * `key1` up to `key2`, or 0 when either is missing from its table.
   */
  function Interval(notes1: seq<string>, key1: string, notes2: seq<string>, key2: string): (r: int)
    requires |notes1| == 12 && |notes2| == 12
    ensures 0 <= r < 12
  {
    var index1 := IndexOf(notes1, key1);
    var index2 := IndexOf(notes2, key2);
    if index1 == -1 || index2 == -1 then 0 else JsRem(12 - index1 + index2, 12)
  }

  /** `getInterval`: each name looked up in its own table. */
  function GetInterval(key1: string, key2: string): (r: int)
    ensures 0 <= r < 12
  {
    Interval(TableFor(key1), key1, TableFor(key2), key2)
  }

  /** `(12 - a + b) % 12` is `b - a` modulo 12 for two table indices. */
  lemma DiffRem(a: int, b: int)
    requires 0 <= a < 12 && 0 <= b < 12
    ensures JsRem(12 - a + b, 12) == (b - a) % 12
  {
    if b >= a {
      ModOfMultiple(12 - a + b, 12, 1, b - a);
      ModOfMultiple(b - a, 12, 0, b - a);
    } else {
      ModOfMultiple(12 - a + b, 12, 0, 12 - a + b);
      ModOfMultiple(b - a, 12, -1, 12 - a + b);
    }
  }

  /** Semitones from pitch class `s1` up to `s2`; 0 when either is unknown (-1). */
  function PitchDistance(s1: int, s2: int): int
  {
    if s1 == -1 || s2 == -1 then 0 else (s2 - s1) % 12
  }

  /** The interval is the difference of the two table positions, modulo 12. */
  lemma IntervalOfPositions(notes1: seq<string>, key1: string, notes2: seq<string>, key2: string)
    requires |notes1| == 12 && |notes2| == 12
    ensures Interval(notes1, key1, notes2, key2) == PitchDistance(IndexOf(notes1, key1), IndexOf(notes2, key2))
  {
    var i1, i2 := IndexOf(notes1, key1), IndexOf(notes2, key2);
    if i1 != -1 && i2 != -1 {
      DiffRem(i1, i2);
    }
  }

  /**
   * The interval is the difference of the semitones modulo 12 when both
   * names are known, and 0 when either is not.
   */
  lemma IntervalIsDistance(key1: string, key2: string)
    ensures GetInterval(key1, key2) == PitchDistance(NoteToSemitone(key1), NoteToSemitone(key2))
  {
    TableIndexIsSemitone(key1);
    TableIndexIsSemitone(key2);
    IntervalOfPositions(TableFor(key1), key1, TableFor(key2), key2);
  }

  /** Enharmonic spellings are the same distance from any name... */
  lemma IntervalFromEnharmonic(a: string, a': string, b: string)
    requires NoteToSemitone(a) == NoteToSemitone(a')
    ensures GetInterval(a, b) == GetInterval(a', b)
  {
    IntervalIsDistance(a, b);
    IntervalIsDistance(a', b);
  }

  /** ...and any name is the same distance from them... */
  lemma IntervalToEnharmonic(a: string, a': string, b: string)
    requires NoteToSemitone(a) == NoteToSemitone(a')
    ensures GetInterval(b, a) == GetInterval(b, a')
  {
    IntervalIsDistance(b, a);
    IntervalIsDistance(b, a');
  }

  /** ...which is no distance from each other. */
  lemma IntervalBetweenEnharmonic(a: string, a': string)
    requires NoteToSemitone(a) == NoteToSemitone(a')
    ensures GetInterval(a, a') == 0
  {
    IntervalIsDistance(a, a');
    assert PitchDistance(NoteToSemitone(a), NoteToSemitone(a')) == 0;
  }

  // ---------------------------------------------------------------- getNoteFromInterval

  /** The entry `semitones` places after `root` in `notes`, modulo 12; `root` itself when it is missing. */
  function LookUp(notes: seq<string>, root: string, semitones: nat): string
    requires |notes| == 12
  {
    var rootIndex := IndexOf(notes, root);
    if rootIndex == -1 then root else notes[(rootIndex + semitones) % 12]
  }

  /**
   * `getNoteFromInterval`: the flat table unless the root holds a '#' or
   * sharps are asked for (they are not by default).
   */
  function NoteFromInterval(root: string, semitones: nat, preferSharps: bool := false): string
  {
    var useFlats := '#' !in root && !preferSharps;
    LookUp(if useFlats then NotesDown else NotesUp, root, semitones)
  }

  /** In a table without repeats, the entry at `i` leads to the entry `semitones` places on, modulo 12. */
  lemma LookUpAt(notes: seq<string>, i: int, semitones: nat)
    requires |notes| == 12 && Distinct(notes) && 0 <= i < 12
    ensures LookUp(notes, notes[i], semitones) == notes[(i + semitones) % 12]
  {
    IndexOfDistinct(notes, i);
  }

  /** A root outside both tables comes back unchanged. */
  lemma NoteFromIntervalUnknown(root: string, semitones: nat, preferSharps: bool)
    requires NoteToSemitone(root) == -1
    ensures NoteFromInterval(root, semitones, preferSharps) == root
  {
    SemitoneSpec(root);
    IndexOfSpec(NotesUp, root);
    IndexOfSpec(NotesDown, root);
  }

  /**
   * Every known root is found, except a flat one when sharps are asked for:
   * that one comes back unchanged, whatever the interval.
   */
  lemma FlatRootWithSharps(root: string, semitones: nat)
    requires root in NotesDown && root !in NotesUp
    ensures NoteFromInterval(root, semitones, true) == root
  {
  }

  /** The table `getNoteFromInterval` picks spells a known root at its semitone, unless it is a flat asked for in sharps. */
  lemma RootInChosenTable(root: string, preferSharps: bool)
    requires NoteToSemitone(root) >= 0
    requires !(preferSharps && root !in NotesUp)
    ensures (if '#' !in root && !preferSharps then NotesDown else NotesUp)[NoteToSemitone(root)] == root
  {
    var i := NoteToSemitone(root);
    SemitoneSpec(root);
    TableSpelling(i);
    if '#' in root {
      assert root == NotesUp[i];
    } else if !preferSharps {
      assert root == NotesDown[i];
    } else {
      IndexOfSpec(NotesUp, root);
      assert root == NotesUp[i];
    }
  }

  /** In either table, the name `semitones` after a root found at `i` is `semitones` above the root, modulo 12. */
  lemma LookUpPitch(notes: seq<string>, root: string, i: int, semitones: nat)
    requires Spells(notes) && Distinct(notes)
    requires 0 <= i < 12 && notes[i] == root
    ensures NoteToSemitone(LookUp(notes, root, semitones)) == (NoteToSemitone(root) + semitones) % 12
  {
    LookUpAt(notes, i, semitones);
    PitchesAt(notes, i, (i + semitones) % 12, semitones, root, LookUp(notes, root, semitones));
  }

  /** A known root that is not a flat asked for in sharps gives the right pitch. */
  lemma NoteFromIntervalKnown(root: string, semitones: nat, preferSharps: bool)
    requires NoteToSemitone(root) >= 0
    requires !(preferSharps && root !in NotesUp)
    ensures NoteToSemitone(NoteFromInterval(root, semitones, preferSharps)) == (NoteToSemitone(root) + semitones) % 12
  {
    var notes := if '#' !in root && !preferSharps then NotesDown else NotesUp;
    RootInChosenTable(root, preferSharps);
    TablesDistinct();
    TablesSpell();
    LookUpPitch(notes, root, NoteToSemitone(root), semitones);
    assert NoteFromInterval(root, semitones, preferSharps) == LookUp(notes, root, semitones);
  }

}
