/**
 * The pure parts of app/src/lib/sound-engine/SoundEngine.ts: naming a MIDI
 * note, spelling a note with its octave the way the sampler expects, the
 * chromatic index of a note name, and the octave layout that turns a
 * chord's note names into the notes the sampler plays.
 */
module SoundLayout {
  import opened JsText
  import opened NoteTables

  /** The sampler's names from C upwards, sharps only (line 125). */
  const SharpNames: seq<string> := ["C", "C#", "D", "D#", "E", "F", "F#", "G", "G#", "A", "A#", "B"]

  /**
   * `midiToNoteName`: the name of `midi % 12` counted from C, then the
   * octave `floor(midi / 12) - 1`. JavaScript's `%` keeps the sign of a
   * negative `midi`, and reading the table there yields `undefined`.
   */
  function MidiToNoteName(midi: int): string
  {
    var r := JsRem(midi, 12);
    (if r >= 0 then SharpNames[r] else "undefined") + IntToDecimal(midi / 12 - 1)
  }

  /** The `noteMap` of `noteWithOctave`: the five flats rewritten to the sharp of the same pitch. */
  function Sharpened(note: string): string
  {
    if note == "Db" then "C#"
    else if note == "Eb" then "D#"
    else if note == "Gb" then "F#"
    else if note == "Ab" then "G#"
    else if note == "Bb" then "A#"
    else note
  }

  /** `noteWithOctave`: the sharp spelling of the note followed by the octave. */
  function NoteWithOctave(note: string, octave: int): string
  {
    Sharpened(note) + IntToDecimal(octave)
  }

  /** The `noteMap` of `getNoteIndex`. */
  const IndexMap: map<string, int> := map[
    "C" := 0, "C#" := 1, "Db" := 1, "D" := 2, "D#" := 3, "Eb" := 3, "E" := 4, "F" := 5,
    "F#" := 6, "Gb" := 6, "G" := 7, "G#" := 8, "Ab" := 8, "A" := 9, "A#" := 10, "Bb" := 10, "B" := 11]

  /** `getNoteIndex`: the chromatic index from C, 0 for a name it does not know. */
  function NoteIndex(note: string): (i: int)
    ensures 0 <= i < 12
    ensures note !in IndexMap ==> i == 0
  {
    if note in IndexMap then IndexMap[note] else 0
  }

  // ---------------------------------------------------------------- the three tables agree

  /** Lines 137-149: exactly the five flats are rewritten; every other name passes through. */
  lemma SharpenedChanges(note: string)
    ensures Sharpened(note) != note <==> note in {"Db", "Eb", "Gb", "Ab", "Bb"}
  {
  }

  /** Lines 236-257: the sharp names index from C = 0 to B = 11. */
  lemma SharpNamesIndexed(i: int)
    requires 0 <= i < 12
    ensures NoteIndex(SharpNames[i]) == i
  {
    if i < 6 {
      if i == 0 {} else if i == 1 {} else if i == 2 {} else if i == 3 {} else if i == 4 {} else {}
    } else {
      if i == 6 {} else if i == 7 {} else if i == 8 {} else if i == 9 {} else if i == 10 {} else {}
    }
  }

  /**
   * Lines 236-257 and 137-149: a flat has the index of its sharp, and for
   * every name `getNoteIndex` knows, the sampler spelling is the sharp name
   * at that index.
   */
  lemma SharpenedKeepsIndex(note: string)
    ensures NoteIndex(Sharpened(note)) == NoteIndex(note)
    ensures note in IndexMap ==> Sharpened(note) == SharpNames[NoteIndex(note)]
  {
    if note in {"Db", "Eb", "Gb", "Ab", "Bb"} {
      if note == "Db" {} else if note == "Eb" {} else if note == "Gb" {} else if note == "Ab" {} else {}
    } else {
      assert Sharpened(note) == note;
    }
  }

  /** The entries of the chord tables, counted from A, index from C nine steps further on. */
  lemma TableIndexFromC(i: int)
    requires 0 <= i < 12
    ensures NotesUp[i] in IndexMap && NoteIndex(NotesUp[i]) == (i + 9) % 12
    ensures NotesDown[i] in IndexMap && NoteIndex(NotesDown[i]) == (i + 9) % 12
  {
    if i < 6 {
      if i == 0 {} else if i == 1 {} else if i == 2 {} else if i == 3 {} else if i == 4 {} else {}
    } else {
      if i == 6 {} else if i == 7 {} else if i == 8 {} else if i == 9 {} else if i == 10 {} else {}
    }
  }

  /**
   * `getNoteIndex` knows exactly the names of the chord tables, and its
   * index from C is their semitone from A moved up nine steps.
   */
  lemma IndexMatchesSemitone(note: string)
    ensures note in IndexMap <==> NoteToSemitone(note) >= 0
    ensures NoteToSemitone(note) >= 0 ==> NoteIndex(note) == (NoteToSemitone(note) + 9) % 12
  {
    SemitoneSpec(note);
    var s := NoteToSemitone(note);
    if s >= 0 {
      TableIndexFromC(s);
    } else if note in IndexMap {
      var i := IndexKnown(note);
      TableIndexFromC(i);
      assert false;
    }
  }

  /** Every name `getNoteIndex` knows is in a chord table. */
  lemma IndexKnown(note: string) returns (i: int)
    requires note in IndexMap
    ensures 0 <= i < 12 && (NotesUp[i] == note || NotesDown[i] == note)
  {
    i := (NoteIndex(note) + 3) % 12;
  }

  /** Lines 124-129: from 0 on, the name is the sharp name of `midi % 12` in octave `midi / 12 - 1`. */
  lemma MidiName(midi: int)
    requires midi >= 0
    ensures MidiToNoteName(midi) == NoteWithOctave(SharpNames[midi % 12], midi / 12 - 1)
  {
    var r := midi % 12;
    assert JsRem(midi, 12) == r;
    SharpNamesIndexed(r);
    SharpenedKeepsIndex(SharpNames[r]);
  }

  /**
   * Lines 124-149: a known note in octave `octave` is what `midiToNoteName`
   * calls MIDI note `12 * (octave + 1) + index`, so the sampler spelling and
   * the MIDI naming agree.
   */
  lemma MidiRoundTrip(note: string, octave: int, midi: int)
    requires note in IndexMap && octave >= -1
    requires midi == 12 * (octave + 1) + NoteIndex(note)
    ensures MidiToNoteName(midi) == NoteWithOctave(note, octave)
  {
    var i := NoteIndex(note);
    assert midi % 12 == i && midi / 12 == octave + 1 by {
      ModOfMultiple(midi, 12, octave + 1, i);
    }
    MidiName(midi);
    SharpenedKeepsIndex(note);
    SharpNamesIndexed(i);
  }

  // ---------------------------------------------------------------- octave layout

  /**
   * The octave of chord note `i` (i >= 1): `chordOctave` for the first,
   * then one higher each time a note's index is not above the previous one.
   */
  function OctaveOf(notes: seq<string>, chordOctave: int, i: int): int
    requires 1 <= i < |notes|
    decreases i
  {
    if i == 1 then chordOctave
    else OctaveOf(notes, chordOctave, i - 1) + (if NoteIndex(notes[i]) <= NoteIndex(notes[i - 1]) then 1 else 0)
  }

  /**
   * Lines 185-205, repeated at 346-366: the notes handed to the sampler,
   * the first at `bassOctave`, the rest starting at `chordOctave` and moving
   * up an octave whenever a note's index does not rise.
   */
  method Layout(notes: seq<string>, bassOctave: int, chordOctave: int) returns (toPlay: seq<string>)
    ensures |toPlay| == |notes|
    ensures |notes| > 0 ==> toPlay[0] == NoteWithOctave(notes[0], bassOctave)
    ensures forall i {:trigger toPlay[i]} :: 1 <= i < |notes| ==> toPlay[i] == NoteWithOctave(notes[i], OctaveOf(notes, chordOctave, i))
  {
    toPlay := [];
    if |notes| > 0 {
      toPlay := toPlay + [NoteWithOctave(notes[0], bassOctave)];
    }
    var currentOctave := chordOctave;
    var lastNoteIndex := -1;
    var i := 1;
    while i < |notes|
      invariant 1 <= i
      invariant |notes| == 0 ==> toPlay == []
      invariant |notes| > 0 ==> i <= |notes| && |toPlay| == i && toPlay[0] == NoteWithOctave(notes[0], bassOctave)
      invariant forall j {:trigger toPlay[j]} :: 1 <= j < i && j < |notes| ==> toPlay[j] == NoteWithOctave(notes[j], OctaveOf(notes, chordOctave, j))
      invariant i == 1 ==> currentOctave == chordOctave && lastNoteIndex == -1
      invariant 1 < i <= |notes| ==> currentOctave == OctaveOf(notes, chordOctave, i - 1) && lastNoteIndex == NoteIndex(notes[i - 1])
    {
      var note := notes[i];
      var noteIndex := NoteIndex(note);
      if lastNoteIndex != -1 && noteIndex <= lastNoteIndex {
        currentOctave := currentOctave + 1;
      }
      toPlay := toPlay + [NoteWithOctave(note, currentOctave)];
      lastNoteIndex := noteIndex;
      i := i + 1;
    }
  }

  /**
   * Lines 190-205: chord octaves start at `chordOctave`, never fall, and
   * rise by at most one per note.
   */
  lemma {:induction false} OctavesClimb(notes: seq<string>, chordOctave: int, j: int, i: int)
    requires 1 <= j <= i < |notes|
    ensures OctaveOf(notes, chordOctave, 1) == chordOctave
    ensures OctaveOf(notes, chordOctave, j) <= OctaveOf(notes, chordOctave, i) <= OctaveOf(notes, chordOctave, j) + (i - j)
    decreases i
  {
    if j < i {
      OctavesClimb(notes, chordOctave, j, i - 1);
    }
  }

  /** The MIDI number a laid-out chord note sounds at. */
  function ChordPitch(notes: seq<string>, chordOctave: int, i: int): int
    requires 1 <= i < |notes|
  {
    12 * (OctaveOf(notes, chordOctave, i) + 1) + NoteIndex(notes[i])
  }

  /**
   * Lines 197-199: the purpose of the octave step. Each chord note sounds
   * above the one before it, by at most an octave.
   */
  lemma PitchesRise(notes: seq<string>, chordOctave: int, i: int)
    requires 2 <= i < |notes|
    ensures ChordPitch(notes, chordOctave, i - 1) < ChordPitch(notes, chordOctave, i) <= ChordPitch(notes, chordOctave, i - 1) + 12
  {
  }

  /** The chord notes sound in strictly rising order. */
  lemma {:induction false} PitchesAscend(notes: seq<string>, chordOctave: int, j: int, i: int)
    requires 1 <= j < i < |notes|
    ensures ChordPitch(notes, chordOctave, j) < ChordPitch(notes, chordOctave, i)
    decreases i
  {
    PitchesRise(notes, chordOctave, i);
    if j < i - 1 {
      PitchesAscend(notes, chordOctave, j, i - 1);
    }
  }

  /**
   * Lines 185-205 with 124-129: a known chord note in an octave from -1 on
   * is laid out as the name `midiToNoteName` gives its MIDI number.
   */
  lemma LayoutNamesPitch(notes: seq<string>, chordOctave: int, i: int)
    requires 1 <= i < |notes| && notes[i] in IndexMap && chordOctave >= -1
    ensures NoteWithOctave(notes[i], OctaveOf(notes, chordOctave, i)) == MidiToNoteName(ChordPitch(notes, chordOctave, i))
  {
    var octave := OctaveOf(notes, chordOctave, i);
    OctavesClimb(notes, chordOctave, 1, i);
    MidiRoundTrip(notes[i], octave, ChordPitch(notes, chordOctave, i));
  }
}
