/**
 * The two twelve-entry spelling tables of app/src/lib/chords/Chord.ts
 * (A = index 0), and the semitone of a note name read from them.
 */
module NoteTables {
  import opened JsText

  /** Sharp spellings, A = 0. */
  const NotesUp: seq<string> := ["A", "A#", "B", "C", "C#", "D", "D#", "E", "F", "F#", "G", "G#"]
  /** Flat spellings, A = 0. */
  const NotesDown: seq<string> := ["A", "Bb", "B", "C", "Db", "D", "Eb", "E", "F", "Gb", "G", "Ab"]

  /**
   * `noteToSemitone`: the position in the sharp table, else in the flat
   * table, else -1.
   */
  function NoteToSemitone(note: string): (r: int)
    ensures -1 <= r < 12
  {
    var i := IndexOf(NotesUp, note);
    if i != -1 then i else IndexOf(NotesDown, note)
  }

  /** -1 exactly for a name in neither table; otherwise the index where one of them spells it. */
  lemma SemitoneSpec(note: string)
    ensures NoteToSemitone(note) == -1 <==> note !in NotesUp && note !in NotesDown
    ensures 0 <= NoteToSemitone(note) ==> NotesUp[NoteToSemitone(note)] == note || NotesDown[NoteToSemitone(note)] == note
  {
    IndexOfSpec(NotesUp, note);
    IndexOfSpec(NotesDown, note);
  }

  /** The table Chord uses for a name: the flat one exactly when the name holds a 'b'. */
  function TableFor(note: string): seq<string>
  {
    if 'b' in note then NotesDown else NotesUp
  }

  predicate Distinct(s: seq<string>)
  {
    forall j, k :: 0 <= j < k < |s| ==> s[j] != s[k]
  }

  lemma IndexOfDistinct(s: seq<string>, i: int)
    requires Distinct(s) && 0 <= i < |s|
    ensures IndexOf(s, s[i]) == i
  {
    IndexOfSpec(s, s[i]);
  }

  /** Two names differing in their first letter or in their length are different. */
  lemma NamesDiffer(u: string, t: string)
    requires |u| >= 1 && |t| >= 1
    requires u[0] != t[0] || |u| != |t|
    ensures u != t
  {
  }

  lemma TablesDistinct()
    ensures Distinct(NotesUp) && Distinct(NotesDown)
  {
    forall j, k | 0 <= j < k < 12 ensures NotesUp[j] != NotesUp[k] {
      NamesDiffer(NotesUp[j], NotesUp[k]);
    }
    forall j, k | 0 <= j < k < 12 ensures NotesDown[j] != NotesDown[k] {
      NamesDiffer(NotesDown[j], NotesDown[k]);
    }
  }

  /** A flat spelling is not in the sharp table. */
  lemma FlatNotInUp(i: int)
    requires 0 <= i < 12 && NotesDown[i] != NotesUp[i]
    ensures NotesDown[i] !in NotesUp
  {
    forall k | 0 <= k < 12 ensures NotesUp[k] != NotesDown[i] {
      if |NotesUp[k]| == 2 {
        assert NotesUp[k][1] != NotesDown[i][1];
      }
    }
  }

  /** Both tables spell pitch class `i` at index `i`. */
  lemma TablesAgree(i: int)
    requires 0 <= i < 12
    ensures NoteToSemitone(NotesUp[i]) == i && NoteToSemitone(NotesDown[i]) == i
  {
    TablesDistinct();
    IndexOfDistinct(NotesUp, i);
    IndexOfDistinct(NotesDown, i);
    if NotesDown[i] != NotesUp[i] {
      FlatNotInUp(i);
      IndexOfSpec(NotesUp, NotesDown[i]);
    }
  }

  /** Either table spells pitch class `j` at index `j`. */
  lemma TableEntry(notes: seq<string>, j: int)
    requires notes == NotesUp || notes == NotesDown
    requires 0 <= j < 12
    ensures NoteToSemitone(notes[j]) == j
  {
    TablesAgree(j);
  }

  /** A name never holds a 'b' in the sharp table, and holds one in the flat table iff it is not natural. */
  lemma TableSpelling(i: int)
    requires 0 <= i < 12
    ensures 'b' !in NotesUp[i]
    ensures 'b' in NotesDown[i] <==> NotesDown[i] != NotesUp[i]
    ensures '#' !in NotesDown[i]
    ensures '#' in NotesUp[i] <==> NotesDown[i] != NotesUp[i]
    ensures |NotesUp[i]| >= 1 && |NotesDown[i]| >= 1
  {
  }

  /**
   * Looking a name up in the table Chord picks for it gives its semitone:
   * the per-name table choice and `noteToSemitone` agree on every string.
   */
  lemma TableIndexIsSemitone(note: string)
    ensures IndexOf(TableFor(note), note) == NoteToSemitone(note)
  {
    var up, down := IndexOf(NotesUp, note), IndexOf(NotesDown, note);
    IndexOfSpec(NotesUp, note);
    IndexOfSpec(NotesDown, note);
    if up != -1 {
      TableSpelling(up);
    } else if down != -1 {
      TableSpelling(down);
    }
  }

  /** The name `h` places after entry `i` of either table is `h` semitones above it, modulo 12. */
  lemma PitchesAt(notes: seq<string>, i: int, j: int, h: int, from: string, to: string)
    requires Spells(notes)
    requires 0 <= i < 12 && j == (i + h) % 12
    requires notes[i] == from && notes[j] == to
    ensures NoteToSemitone(to) == (NoteToSemitone(from) + h) % 12
  {
    RewriteMod(NoteToSemitone(from), NoteToSemitone(to), i, h);
  }

  /** Twelve names that spell pitch class `k` at index `k`. */
  ghost predicate Spells(notes: seq<string>)
  {
    |notes| == 12 && forall k :: 0 <= k < 12 ==> NoteToSemitone(notes[k]) == k
  }

  /** Both tables spell every pitch class at its own index. */
  lemma TablesSpell()
    ensures Spells(NotesUp) && Spells(NotesDown)
  {
    forall k | 0 <= k < 12
      ensures NoteToSemitone(NotesUp[k]) == k && NoteToSemitone(NotesDown[k]) == k
    {
      TableEntry(NotesUp, k);
      TableEntry(NotesDown, k);
    }
  }

  /** Replaces `i` by an equal `x` under `(_ + h) % 12`, as a step on plain integers. */
  lemma RewriteMod(x: int, y: int, i: int, h: int)
    requires x == i && y == (i + h) % 12
    ensures y == (x + h) % 12
  {
  }
}
