# Chord progression core, modelled in Dafny

A model of the music-theory core of the chord-progression app. It covers:

- the `Chord` class (`app/src/lib/chords/Chord.ts`);
- the ukulele voicing search (`app/src/lib/chords/Ukulele.ts`);
- the pure note arithmetic of the sound engine (`app/src/lib/sound-engine/SoundEngine.ts`).

A chord symbol such as `Cm7(b5)\Eb` names:

- a key (a note from A to G#, written with sharps or flats);
- a quality (`''`, `m`, `aug`, `dim`, `sus2`, `sus4`);
- additions (`7`, `maj9`, `13`, …);
- parenthesised modifications (`b5`, `#9`, …);
- an optional bass note after a backslash.

`fromString` accepts a symbol only when it matches the chord grammar. It then slices the text into those fields. The `Chord` object keeps a display name that `updateName` rewrites from the fields. `getNotes` lists the bass, the root, and the notes of a degree map filled by the quality, the additions and the modifications. `transposeKey`, `getInterval` and `getNoteFromInterval` work on the two twelve-note spelling tables, one with sharps and one with flats, both counted from A.

The ukulele module turns a chord into a set of target pitch classes. For each string it lists the frets, up to the 12th, that sound a target note. It enumerates every voicing that is playable, meaning its fretted notes span at most six frets, and that sounds exactly the target set. It keeps the voicing with the lowest score and numbers the fingers of its fretted strings.

The sound engine names MIDI notes and writes notes in the sampler's sharp spelling with an octave. It lays out the notes of a chord so that each note sounds above the one before.

## Layout

| file | module | what it holds |
|---|---|---|
| wrappers.dfy | Wrappers | `Option`, `Result` |
| text.dfy | JsText | the JavaScript built-ins the core relies on: `indexOf`, `split`, `join`, the truncating `%`, number-to-string |
| notes.dfy | NoteTables | `notesUp`/`notesDown` and the semitone of a note name |
| theory.dfy | ChordTheory | `transposeKey`, `getInterval`, `getNoteFromInterval` |
| grammar.dfy | ChordGrammar | the chord-symbol pattern as a grammar of `Symbol`s; a deterministic recogniser proved sound and complete for it |
| parse.dfy | ChordParse | `fromString`'s buffer slicing; the name `updateName` writes; the round trip between the two |
| notes_map.dfy | DegreeMaps | the degree map of `getNotes` as a fold of writes |
| chord.dfy | ChordModel | the `Chord` class with its mutable fields and methods |
| chord_oracle.dfy | ChordOracle | the expected note lists of `app/validate-chord-notes.ts`, each proved for every root |
| ukulele.dfy | Ukulele | the whole of `Ukulele.ts` |
| sound.dfy | SoundLayout | `midiToNoteName`, `noteWithOctave`, `getNoteIndex` and the octave layout of `playChord`/`playProgression` |

The model has three levels:

- Specification functions state what each operation means. Examples are `Interpret` (what a name parses to), `ChordNotes` (what `getNotes` returns), `Intervals`, `Voicings` and `Preferred`.
- Methods, the loops and state updates of the source, are proved against those functions.
- Lemmas state the properties of the functions.

Two behaviours of the source are reproduced as written, because the rest of the app depends on them:

- A quality written after an addition stays glued to the addition. `C7sus4` parses with quality `''` and addition `7sus4`, which `getNotes` ignores.
- `getNoteFromInterval` with sharps preferred does not find a flat root in the sharp table, so it returns the root itself. `Bbaug` therefore sounds `Bb Bb D Bb`.

Both are stated as lemmas (`ChordOracle.SeventhSuspendedFourth`, `ChordOracle.AugmentedFlatRoot`).

## Model

| member | source | states |
|---|---|---|
| NoteTables.NoteToSemitone | app/src/lib/chords/Ukulele.ts:16-20 | definition of `noteToSemitone`: the index in the sharp table, else in the flat table, else -1; the result lies in -1..11, and `NoteTables.SemitoneSpec` characterises it |
| NoteTables.SemitoneSpec | app/src/lib/chords/Ukulele.ts:16-20 | `noteToSemitone` is -1 exactly for names in neither table; otherwise the name sits at that index of the sharp or the flat table |
| NoteTables.TablesAgree | app/src/lib/chords/Chord.ts:3-4 | the entry at index i of either spelling table has semitone i, so the two tables spell the same pitch at each index |
| NoteTables.TablesDistinct | app/src/lib/chords/Chord.ts:3-4 | neither spelling table repeats a name, so `indexOf` finds each entry at its own index |
| NoteTables.TableIndexIsSemitone | app/src/lib/chords/Chord.ts:163-164 | the index found in the table picked by "contains 'b'" is the note's semitone; this holds for unknown names too (-1) |
| NoteTables.TableSpelling | app/src/lib/chords/Chord.ts:3-4 | the sharp table holds no 'b' and the flat table no '#'; the two differ at an index exactly when the entries carry an accidental |
| ChordTheory.TransposeKey | app/src/lib/chords/Chord.ts:162-169 | definition of `transposeKey`: the entry `(index + halfsteps + 12) % 12` of the table chosen by 'b', the key itself when the table lacks it, `None` for JavaScript's `undefined`; properties in the `ChordTheory.Transpose*` rows |
| ChordTheory.TransposeUnknown | app/src/lib/chords/Chord.ts:162-169 | a key found in neither table comes back unchanged |
| ChordTheory.TransposeZero | app/src/lib/chords/Chord.ts:162-169 | transposing by zero half-steps gives the key back |
| ChordTheory.TransposeSemitone | app/src/lib/chords/Chord.ts:162-169 | from -12 half-steps up, a known key transposes to the entry of its own table `halfsteps` places on, modulo 12, so its semitone moves by `halfsteps` modulo 12 |
| ChordTheory.TransposeCompose | app/src/lib/chords/Chord.ts:162-169 | transposing by `a` and then by `b`, both from -12 up, is defined and lands on the semitone of the key moved by `a + b`, modulo 12; the spelling may differ (`TransposeFlatUp`, `TransposeNaturalDown`) |
| ChordTheory.TransposeUndefined | app/src/lib/chords/Chord.ts:167-168 | the result is `undefined` exactly when index + halfsteps + 12 is negative and not a multiple of 12, because of JavaScript's truncating `%` |
| ChordTheory.TransposeFarDown | app/src/lib/chords/Chord.ts:167-168 | C moved down 16 is `undefined`; C moved down 15 is A |
| ChordTheory.TransposeFlatUp | app/src/lib/chords/Chord.ts:163 | a flat key stays in the flat table: Bb up one is B |
| ChordTheory.TransposeNaturalDown | app/src/lib/chords/Chord.ts:163 | a natural key uses the sharp table: B down one is A# |
| ChordTheory.GetInterval | app/src/lib/chords/Chord.ts:177-187 | the interval is always between 0 and 11 |
| ChordTheory.IntervalIsDistance | app/src/lib/chords/Chord.ts:177-187 | `getInterval` is the upward distance from the first pitch to the second modulo 12, and 0 when either name is unknown |
| ChordTheory.IntervalFromEnharmonic | app/src/lib/chords/Chord.ts:177-187 | replacing the first note by an enharmonic spelling leaves the interval unchanged |
| ChordTheory.IntervalToEnharmonic | app/src/lib/chords/Chord.ts:177-187 | replacing the second note by an enharmonic spelling leaves the interval unchanged |
| ChordTheory.IntervalBetweenEnharmonic | app/src/lib/chords/Chord.ts:177-187 | two spellings of one pitch are 0 apart |
| ChordTheory.NoteFromInterval | app/src/lib/chords/Chord.ts:332-341 | definition of `getNoteFromInterval`, with `preferSharps` false by default: the entry `semitones` after the root in the table chosen by '#' and `preferSharps`, or the root when that table lacks it; properties in the `ChordTheory.NoteFromInterval*`, `FlatRootWithSharps` and `RootInChosenTable` rows |
| ChordTheory.NoteFromIntervalUnknown | app/src/lib/chords/Chord.ts:336-337 | a root found in neither table is returned unchanged |
| ChordTheory.FlatRootWithSharps | app/src/lib/chords/Chord.ts:334-337 | a flat root with sharps preferred is missing from the sharp table, so the root itself is returned |
| ChordTheory.NoteFromIntervalKnown | app/src/lib/chords/Chord.ts:332-341 | whenever the chosen table holds the root, the note returned lies `semitones` above the root, modulo 12 |
| ChordTheory.RootInChosenTable | app/src/lib/chords/Chord.ts:334-336 | a root with no '#' and sharps not preferred is read from the flat table, otherwise from the sharp table, and that table holds it at its semitone |
| ChordGrammar.Recognize | app/src/lib/chords/Chord.ts:8-17 | soundness of the recogniser: every symbol it returns is well formed and spells the input exactly |
| ChordGrammar.RecognizeSpell | app/src/lib/chords/Chord.ts:8-17 | completeness: the spelling of every well-formed symbol is recognised as that very symbol, so the decomposition is unique |
| ChordGrammar.MatchesIffSpelled | app/src/lib/chords/Chord.ts:15-17 | the pattern test holds exactly for the spellings of well-formed symbols |
| ChordGrammar.VocabulariesPrefixFree | app/src/lib/chords/Chord.ts:10-12 | no addition, modification or post-quality token is a proper prefix of another of its list |
| ChordParse.ParenFromLeftmost | app/src/lib/chords/Chord.ts:75 | the search for `\(([^)]+)\)` stops at the leftmost '(' where the pattern matches |
| ChordParse.ParenFromNone | app/src/lib/chords/Chord.ts:75-76 | when the search fails, the pattern matches at no position |
| ChordParse.GroupShape | app/src/lib/chords/Chord.ts:75-77 | a match runs from a '(' to the first ')' after it, with at least one character between them |
| ChordParse.CutKey | app/src/lib/chords/Chord.ts:56-63 | the key is the note the name starts with, one or two characters, and the buffer is the rest |
| ChordParse.CutBass | app/src/lib/chords/Chord.ts:65-72 | the bass is the text after the backslash, or the key when there is none; the buffer keeps the text before the backslash |
| ChordParse.CutMods | app/src/lib/chords/Chord.ts:74-80 | the modifications are the '/'-separated parts inside the parentheses, and removing the group leaves the quality text |
| ChordParse.ScanType | app/src/lib/chords/Chord.ts:82-97 | the scan of `types` stops at the first type the buffer starts with; a buffer starting with "maj" keeps type '' |
| ChordParse.CutAdds | app/src/lib/chords/Chord.ts:99-102 | the rest is split at '/' into non-empty additions; a quality written after them stays glued to the last one |
| ChordParse.SliceFields | app/src/lib/chords/Chord.ts:49-104 | on a name that spells a well-formed symbol, the buffer steps yield exactly the fields the symbol denotes |
| ChordParse.Interpret | app/src/lib/chords/Chord.ts:43-47 | definition of what `fromString` accepts, independent of the buffer steps: the error "Unrecognized chord: " + name unless the name spells a well-formed symbol, else that symbol's fields; properties in `ParseFields`, `InterpretSucceeds`, `InterpretError` and `ParseName` |
| ChordParse.ParseFields | app/src/lib/chords/Chord.ts:43-116 | `fromString` up to the constructor: an empty or non-matching name is the error "Unrecognized chord: " + name, and any other name gives the fields `Interpret` assigns |
| ChordParse.InterpretSucceeds | app/src/lib/chords/Chord.ts:108-116 | a name is accepted exactly when it spells a well-formed symbol |
| ChordParse.InterpretError | app/src/lib/chords/Chord.ts:45-47 | the error message of a rejected name is "Unrecognized chord: " followed by the name |
| ChordParse.MinorIffMarked | app/src/lib/chords/Chord.ts:83-97 | the type is 'm' exactly when the text after the key starts with "m" and not with "maj" |
| ChordParse.BassAfterBackslash | app/src/lib/chords/Chord.ts:65-72 | after parsing, the bass is the text after the backslash when the name has one, and the key otherwise |
| ChordParse.NameOfFields | app/src/lib/chords/Chord.ts:118-151 | the name `updateName` writes for parsed fields is the canonical spelling of the symbol: the type '' or 'm' before the additions, other types after them |
| ChordParse.ParseName | app/src/lib/chords/Chord.ts:43-151 | round trip: parsing the name `updateName` writes for an accepted chord gives back the same fields |
| DegreeMaps.ChordNotes | app/src/lib/chords/Chord.ts:208-323 | definition of the notes `getNotes` returns: bass, key, then one note per present degree of the interval map; properties in `Priority`, `NotesShape`, `DegreeNotesSteps` and `ChordModel.Chord.GetNotes` |
| DegreeMaps.ApplyLastWrite | app/src/lib/chords/Chord.ts:226-308 | after the `intervals.set` calls, a degree holds its last write, or its earlier value when nothing writes it |
| DegreeMaps.Priority | app/src/lib/chords/Chord.ts:225-309 | a degree takes the last modification's value when a modification writes it, else the last addition's, else the quality default; it is absent when none writes it |
| DegreeMaps.FifthPresent | app/src/lib/chords/Chord.ts:236-243 | every chord has a fifth |
| DegreeMaps.KeysListed | app/src/lib/chords/Chord.ts:312-320 | only the nine emitted degrees 2, 3, 4, 5, 6, 7, 9, 11 and 13 are ever written, so no interval is dropped |
| DegreeMaps.NotesShape | app/src/lib/chords/Chord.ts:208-323 | the note list starts with the bass and the root, and holds 3 to 11 notes |
| DegreeMaps.StepNotesAt | app/src/lib/chords/Chord.ts:314-319 | note k of the degree notes is the `getNoteFromInterval` of the k-th present step |
| DegreeMaps.DegreeNotesSteps | app/src/lib/chords/Chord.ts:311-320 | the degree notes are the notes of the present degrees' steps, in ascending degree order |
| ChordModel.Chord.constructor | app/src/lib/chords/Chord.ts:26-40 | the fields are the arguments, a missing or empty bass becomes the key, and the name is written at once |
| ChordModel.Chord.UpdateName | app/src/lib/chords/Chord.ts:118-151 | only the name changes, and it becomes the name of the current fields |
| ChordModel.Chord.RefreshName | app/src/lib/chords/Chord.ts:154-156 | only the name changes, and it matches the fields again |
| ChordModel.Chord.ToString | app/src/lib/chords/Chord.ts:189-191 | returns the stored name in any state; once the name is up to date (`Valid`), that is the rendering of the current fields |
| ChordModel.Chord.Copy | app/src/lib/chords/Chord.ts:158-160 | a fresh chord with equal fields, except that an empty bass becomes the key in the constructor |
| ChordModel.Chord.Transpose | app/src/lib/chords/Chord.ts:171-175 | key and bass are each transposed in their own table; type, additions and modifications are kept, and the name is rewritten |
| ChordModel.Chord.FromString | app/src/lib/chords/Chord.ts:43-106 | a rejected name gives the error that names it; an accepted name gives a fresh chord whose fields are the ones the name spells |
| ChordModel.Chord.GetNotes | app/src/lib/chords/Chord.ts:208-323 | the notes are the bass, the root, then one note per degree of the degree map, in ascending degree order |
| ChordModel.SetDefaults | app/src/lib/chords/Chord.ts:225-243 | the defaults written for the quality are the map of its default writes |
| ChordModel.AddAll | app/src/lib/chords/Chord.ts:245-278 | the addition loop makes the writes of every addition, in list order |
| ChordModel.Addition | app/src/lib/chords/Chord.ts:246-277 | one addition makes its own writes: '9' also writes the seventh, '11' and '13' the lower extensions, '5' writes nothing |
| ChordModel.ModifyAll | app/src/lib/chords/Chord.ts:280-309 | the modification loop makes the writes of every modification, in list order |
| ChordModel.Modification | app/src/lib/chords/Chord.ts:281-308 | one modification makes its own writes: '#11' and 'b13' also write the lower extensions, and 'b6' is one below the quality's sixth |
| ChordModel.EmitDegrees | app/src/lib/chords/Chord.ts:311-320 | the emit loop yields one note per present degree, in the listed order |
| ChordModel.QualityDefaults | app/src/lib/chords/Chord.ts:225-243 | the default third (the second for sus2, the fourth for sus4, the minor third for 'm' and 'dim') and the default fifth (raised and sharp-spelled for aug, flat for dim) |
| ChordModel.InterpretBassNonEmpty | app/src/lib/chords/Chord.ts:65-72 | an accepted name never has an empty bass, so the constructor's `bass \|\| key` keeps it |
| ChordOracle.MajorTriad | app/validate-chord-notes.ts:11-13 | `getNotes` after `fromString`, at every root the tables spell: a major triad is the root, its major third and its fifth (C, F#, Bb). |
| ChordOracle.MinorTriad | app/validate-chord-notes.ts:16-18 | `getNotes` after `fromString`, at every root the tables spell: a minor triad is the root, its minor third and its fifth (Cm, F#m, Am). |
| ChordOracle.Augmented | app/validate-chord-notes.ts:21 | `getNotes` after `fromString`, at every root the tables spell: an augmented triad raises the fifth, spelled from the sharp table (Caug). |
| ChordOracle.Diminished | app/validate-chord-notes.ts:22 | `getNotes` after `fromString`, at every root the tables spell: a diminished triad has a minor third and a flat fifth (Cdim). |
| ChordOracle.SuspendedSecond | app/validate-chord-notes.ts:25 | `getNotes` after `fromString`, at every root the tables spell: sus2 replaces the third by the second (Csus2). |
| ChordOracle.SuspendedFourth | app/validate-chord-notes.ts:26 | `getNotes` after `fromString`, at every root the tables spell: sus4 replaces the third by the fourth (Csus4). |
| ChordOracle.DominantSeventh | app/validate-chord-notes.ts:29 | `getNotes` after `fromString`, at every root the tables spell: a dominant seventh adds the minor seventh (C7). |
| ChordOracle.MajorSeventh | app/validate-chord-notes.ts:30 | `getNotes` after `fromString`, at every root the tables spell: maj7 adds the major seventh (Cmaj7). |
| ChordOracle.MinorSeventh | app/validate-chord-notes.ts:31 | `getNotes` after `fromString`, at every root the tables spell: a minor seventh (Cm7). |
| ChordOracle.MinorMajorSeventh | app/validate-chord-notes.ts:32 | `getNotes` after `fromString`, at every root the tables spell: 'm' followed by 'maj7' is a minor chord with a major seventh (Cmmaj7). |
| ChordOracle.DominantNinth | app/validate-chord-notes.ts:35 | `getNotes` after `fromString`, at every root the tables spell: a ninth brings the minor seventh with it (C9). |
| ChordOracle.MajorNinth | app/validate-chord-notes.ts:36 | `getNotes` after `fromString`, at every root the tables spell: maj9 brings the major seventh with it (Cmaj9). |
| ChordOracle.Eleventh | app/validate-chord-notes.ts:37 | `getNotes` after `fromString`, at every root the tables spell: an eleventh brings the seventh and ninth with it (C11). |
| ChordOracle.Thirteenth | app/validate-chord-notes.ts:38 | `getNotes` after `fromString`, at every root the tables spell: a thirteenth brings the seventh, ninth and eleventh with it (C13). |
| ChordOracle.MajorSixth | app/validate-chord-notes.ts:41 | `getNotes` after `fromString`, at every root the tables spell: '6' on a major chord is the major sixth (C6). |
| ChordOracle.MinorSixth | app/validate-chord-notes.ts:42 | `getNotes` after `fromString`, at every root the tables spell: '6' on a minor chord is the minor sixth (Cm6). |
| ChordOracle.MinorWithMajorSixth | app/validate-chord-notes.ts:43 | `getNotes` after `fromString`, at every root the tables spell: 'maj6' is the major sixth even on a minor chord (Cmmaj6). |
| ChordOracle.SeventhFlatFifth | app/validate-chord-notes.ts:46 | `getNotes` after `fromString`, at every root the tables spell: the b5 modification overrides the default fifth (C7(b5)). |
| ChordOracle.SeventhSharpFifth | app/validate-chord-notes.ts:47 | `getNotes` after `fromString`, at every root the tables spell: the #5 modification overrides the fifth with a sharp spelling (C7(#5)). |
| ChordOracle.SeventhFlatNinth | app/validate-chord-notes.ts:48 | `getNotes` after `fromString`, at every root the tables spell: the b9 modification adds the minor ninth (C7(b9)). |
| ChordOracle.SeventhSharpNinth | app/validate-chord-notes.ts:49 | `getNotes` after `fromString`, at every root the tables spell: the #9 modification adds the augmented ninth, sharp-spelled (C7(#9)). |
| ChordOracle.SeventhSharpEleventh | app/validate-chord-notes.ts:50 | `getNotes` after `fromString`, at every root the tables spell: the #11 modification adds the ninth and a sharp-spelled augmented eleventh (C7(#11)). |
| ChordOracle.SeventhFlatThirteenth | app/validate-chord-notes.ts:51 | `getNotes` after `fromString`, at every root the tables spell: the b13 modification adds the ninth, the eleventh and the minor thirteenth (C7(b13)). |
| ChordOracle.MinorFlatFifth | app/validate-chord-notes.ts:52 | `getNotes` after `fromString`, at every root the tables spell: a modification outranks the quality's fifth (Dm(b5)). |
| ChordOracle.HalfDiminished | app/validate-chord-notes.ts:53 | `getNotes` after `fromString`, at every root the tables spell: a minor seventh with a flat fifth (Dm7(b5)). |
| ChordOracle.AddSecond | app/validate-chord-notes.ts:56 | `getNotes` after `fromString`, at every root the tables spell: '2' adds the second below the third (C2). |
| ChordOracle.AddFourth | app/validate-chord-notes.ts:57 | `getNotes` after `fromString`, at every root the tables spell: '4' adds the fourth between the third and the fifth (C4). |
| ChordOracle.MajorOverBass | app/validate-chord-notes.ts:60-61 | `getNotes` after `fromString`, at every root the tables spell: a slash chord lists its bass first and the chord's own notes after it (C\\G, C\\E). |
| ChordOracle.MinorOverBass | app/validate-chord-notes.ts:62 | `getNotes` after `fromString`, at every root the tables spell: a minor slash chord (Dm\\F). |
| ChordOracle.SeventhOverBass | app/validate-chord-notes.ts:63 | `getNotes` after `fromString`, at every root the tables spell: a seventh over another bass (C7\\Bb). |
| ChordOracle.SeventhFlatFifthFlatNinth | app/validate-chord-notes.ts:67 | `getNotes` after `fromString`, at every root the tables spell: two modifications apply in turn (C7(b5/b9)). |
| ChordOracle.SeventhSuspendedFourth | app/src/lib/chords/Chord.ts:83-102 | `C7sus4` and its counterparts at every root keep type '' and the addition "7sus4", which `getNotes` ignores, so they sound as the plain major triad |
| ChordOracle.AugmentedFlatRoot | app/src/lib/chords/Chord.ts:332-341 | an augmented chord on a flat root such as Bb gets the root itself as its raised fifth, because the sharp table lacks the root |
| Ukulele.FretToSemitone | app/src/lib/chords/Ukulele.ts:23-25 | definition of `fretToSemitone` with JavaScript's truncating `%`: the result lies strictly between -12 and 12; properties in `FretInOctave` through `FretUnknownOpen` |
| Ukulele.FretInOctave | app/src/lib/chords/Ukulele.ts:23-25 | for a known open note and a fret from 0 up, the fretted semitone is in 0..11 and congruent to open note + fret |
| Ukulele.FretOctave | app/src/lib/chords/Ukulele.ts:23-25 | twelve frets higher sounds the same pitch class |
| Ukulele.FretSameSemitone | app/src/lib/chords/Ukulele.ts:23-25 | two open notes with the same semitone sound the same at every fret |
| Ukulele.FretEnharmonic | app/src/lib/chords/Ukulele.ts:16-25 | a string tuned to a sharp or to its enharmonic flat sounds the same at every fret |
| Ukulele.FretUnknownOpen | app/src/lib/chords/Ukulele.ts:16-25 | an unknown open note at fret 0 yields -1, because JavaScript's `%` keeps the sign |
| Ukulele.IntervalsRooted | app/src/lib/chords/Ukulele.ts:30-145 | every interval set contains the root 0, and all its members lie in 0..11 |
| Ukulele.PowerChordResets | app/src/lib/chords/Ukulele.ts:68-71 | an addition '5' discards everything before it: the result is that of {0, 7} with the later additions |
| Ukulele.PowerChordIgnoresType | app/src/lib/chords/Ukulele.ts:36-71 | with a '5' among the additions, the chord type makes no difference |
| Ukulele.LastModificationWins | app/src/lib/chords/Ukulele.ts:104-145 | after all modifications, the last one's removals are absent and its additions are present |
| Ukulele.ReplacementsSpellTriads | app/src/lib/chords/Ukulele.ts:38-46 | (b3) on a major triad gives the minor triad, (#5) gives the augmented triad, and (b5) on a minor triad gives the diminished triad |
| Ukulele.AddInterval | app/src/lib/chords/Ukulele.ts:60-102 | one pass of the addition switch yields the set the addition specifies |
| Ukulele.ModifyInterval | app/src/lib/chords/Ukulele.ts:105-145 | one pass of the modification switch yields the set the modification specifies |
| Ukulele.SortIntervals | app/src/lib/chords/Ukulele.ts:147 | the interval set as a strictly ascending list with the same members, from 0 up to at most 11 |
| Ukulele.GetChordIntervals | app/src/lib/chords/Ukulele.ts:30-148 | the intervals of type, additions and modifications, ascending and without repeats, starting at the root 0 |
| Ukulele.TargetShape | app/src/lib/chords/Ukulele.ts:153-160 | the target set has one pitch class per interval; for a known key it holds the root and only pitch classes 0..11, and for an unknown key it holds -1 |
| Ukulele.GetTargetNotes | app/src/lib/chords/Ukulele.ts:153-160 | the target set is each interval shifted by the key's semitone, modulo 12 |
| Ukulele.ValidFrets | app/src/lib/chords/Ukulele.ts:172-180 | the candidate frets of one string, ascending: exactly the frets 0..12 whose note is in the target set |
| Ukulele.GetValidFretsPerString | app/src/lib/chords/Ukulele.ts:168-181 | one candidate list per string of the tuning |
| Ukulele.CandidatesUnique | app/src/lib/chords/Ukulele.ts:168-181 | the candidate list of a string is uniquely determined |
| Ukulele.IsPlayable | app/src/lib/chords/Ukulele.ts:186-190 | definition of `isPlayable`: no fretted string, or at most six frets between the lowest and highest fretted fret; characterised by `PlayableIffClose` |
| Ukulele.PlayableIffClose | app/src/lib/chords/Ukulele.ts:186-190 | a voicing is playable exactly when any two fretted strings are at most six frets apart; an all-open voicing is playable |
| Ukulele.ScoreVoicing | app/src/lib/chords/Ukulele.ts:214-221 | definition of `scoreVoicing`: 0 with no fretted string, else three times the lowest fret plus twice the span plus the sum of the fretted frets; properties in `ScoreZeroIffOpen`, `OpenPreferred` and `BestVoicing` |
| Ukulele.ScoreZeroIffOpen | app/src/lib/chords/Ukulele.ts:214-221 | a score is never negative, and it is 0 exactly for a voicing with no fretted string |
| Ukulele.PlayedNotes | app/src/lib/chords/Ukulele.ts:198-201 | the loop collects the pitch classes the voicing's strings sound |
| Ukulele.CoversAllNotes | app/src/lib/chords/Ukulele.ts:193-208 | true exactly when the voicing sounds the target set and nothing else |
| Ukulele.PlayedSize | app/src/lib/chords/Ukulele.ts:198-202 | a voicing sounds at most one pitch class per string |
| Ukulele.TooManyNotes | app/src/lib/chords/Ukulele.ts:289-290 | with more target notes than strings, no voicing is exact, which justifies the early `null` |
| Ukulele.VoicingsExact | app/src/lib/chords/Ukulele.ts:226-250 | with one candidate list per string, the enumeration lists exactly the exact voicings: one fret per string from 0 to 12, playable, sounding exactly the target set |
| Ukulele.VoicingsSorted | app/src/lib/chords/Ukulele.ts:242-245 | the enumeration comes out in strictly increasing lexicographic order, so it repeats no voicing |
| Ukulele.Enumerate | app/src/lib/chords/Ukulele.ts:235-246 | the recursive search appends, in order, the voicings that extend the current prefix, and restores the prefix it was called with |
| Ukulele.FindAllVoicings | app/src/lib/chords/Ukulele.ts:226-250 | the result is the enumeration of all voicings that pass both checks |
| Ukulele.SortByKeyOrders | app/src/lib/chords/Ukulele.ts:298 | the sort orders the voicings by ascending score |
| Ukulele.SortByKey | app/src/lib/chords/Ukulele.ts:298 | the sorted list is a permutation of the voicings |
| Ukulele.SortByKeyHead | app/src/lib/chords/Ukulele.ts:298-299 | the head of the sorted list is the first voicing of lowest score |
| Ukulele.BestVoicing | app/src/lib/chords/Ukulele.ts:292-299 | the enumeration is empty exactly when no voicing is exact; otherwise the chosen voicing is exact and preferred, meaning it has the lowest score and is lexicographically first among ties |
| Ukulele.OpenPreferred | app/src/lib/chords/Ukulele.ts:214-221 | when an exact all-open voicing exists, it is the one chosen |
| Ukulele.PreferredUnique | app/src/lib/chords/Ukulele.ts:292-299 | at most one voicing is preferred, so the choice is determined |
| Ukulele.FrettedStrings | app/src/lib/chords/Ukulele.ts:256-258 | one (string, fret) pair per fretted string, strings numbered from 1, open strings left out, in string order |
| Ukulele.SortFrettings | app/src/lib/chords/Ukulele.ts:259 | the fretted strings are reordered, a permutation of them |
| Ukulele.SortInOrder | app/src/lib/chords/Ukulele.ts:259 | after the sort, the pairs are ordered by fret, then by string |
| Ukulele.Fingered | app/src/lib/chords/Ukulele.ts:261-266 | the k-th sorted pair gets finger k + 1 and barre 0 |
| Ukulele.FretsToFingerPlacements | app/src/lib/chords/Ukulele.ts:255-267 | definition of `fretsToFingerPlacements`: the fretted strings, sorted by fret then string, numbered as fingers 1, 2, …; characterised by `PlacementsShape` |
| Ukulele.PlacementsShape | app/src/lib/chords/Ukulele.ts:255-267 | there is exactly one placement per fretted string, on its own fret, ordered by fret then string, with fingers 1, 2, … and no barre |
| Ukulele.PlacementsForTarget | app/src/lib/chords/Ukulele.ts:287-299 | `null` exactly when no exact voicing exists; otherwise the placements of an exact, preferred voicing |
| Ukulele.ChordToFingerPlacements | app/src/lib/chords/Ukulele.ts:283-300 | `null` exactly when no exact voicing exists for the chord's target set; otherwise the finger placements of its preferred exact voicing |
| SoundLayout.MidiToNoteName | app/src/lib/sound-engine/SoundEngine.ts:124-129 | definition of `midiToNoteName`: the sharp name at `midi % 12` under JavaScript's `%` ("undefined" for a negative remainder) followed by the floored octave `midi / 12 - 1`; properties in `MidiName` and `MidiRoundTrip` |
| SoundLayout.Sharpened | app/src/lib/sound-engine/SoundEngine.ts:138-147 | definition of the `noteMap` rewrite of the five flats to sharps, any other name kept; characterised by `SharpenedChanges` and `SharpenedKeepsIndex` |
| SoundLayout.NoteWithOctave | app/src/lib/sound-engine/SoundEngine.ts:137-149 | definition of `noteWithOctave`: the rewritten name followed by the octave; related to `midiToNoteName` by `MidiName` and `MidiRoundTrip` |
| SoundLayout.NoteIndex | app/src/lib/sound-engine/SoundEngine.ts:236-257 | the index is in 0..11, and 0 for a name the map does not know |
| SoundLayout.SharpenedChanges | app/src/lib/sound-engine/SoundEngine.ts:137-149 | exactly the five flats Db, Eb, Gb, Ab and Bb are rewritten; every other name passes through |
| SoundLayout.SharpNamesIndexed | app/src/lib/sound-engine/SoundEngine.ts:124-127 | the MIDI name table and `getNoteIndex` agree: name i of the table has index i |
| SoundLayout.SharpenedKeepsIndex | app/src/lib/sound-engine/SoundEngine.ts:137-149 | the sharp rewrite keeps the chromatic index, and a known note becomes the sharp name at its index |
| SoundLayout.IndexMatchesSemitone | app/src/lib/sound-engine/SoundEngine.ts:236-257 | `getNoteIndex` knows exactly the names of the chord tables, and its index from C is their semitone from A plus 9, modulo 12 |
| SoundLayout.MidiName | app/src/lib/sound-engine/SoundEngine.ts:124-129 | from 0 up, MIDI note m is named by the sharp name of m % 12 in octave m / 12 - 1 |
| SoundLayout.MidiRoundTrip | app/src/lib/sound-engine/SoundEngine.ts:124-149 | a known note in octave o, from -1 up, is what `midiToNoteName` calls MIDI note 12(o + 1) + index |
| SoundLayout.Layout | app/src/lib/sound-engine/SoundEngine.ts:185-205 | one sampler note per chord note: the first at the bass octave, the rest from the chord octave up, one octave higher whenever the index does not rise (the same loop is at lines 346-366) |
| SoundLayout.OctavesClimb | app/src/lib/sound-engine/SoundEngine.ts:190-205 | the chord octaves start at the configured octave, never fall, and rise by at most one per note |
| SoundLayout.PitchesRise | app/src/lib/sound-engine/SoundEngine.ts:198-201 | each laid-out chord note sounds above the previous one, by at most an octave |
| SoundLayout.PitchesAscend | app/src/lib/sound-engine/SoundEngine.ts:194-205 | the chord notes after the bass sound in strictly rising order |
| SoundLayout.LayoutNamesPitch | app/src/lib/sound-engine/SoundEngine.ts:185-205 | a known chord note, laid out from octave -1 up, is spelled as `midiToNoteName` names its pitch |

## Left out

- Audio output is outside the model: Tone.js, the sampler, loading, volume, timers, cascading and scheduling in `SoundEngine.ts`. Only the note naming and octave layout that feed the sampler are modelled.
- `playChord` and `playProgression` are modelled only through the octave layout they share (`SoundLayout.Layout`). Their early returns for fewer than two notes or an unloaded sampler depend on that I/O state.
- `Chord.getColor` is not modelled: it produces a CSS colour string for the UI.
- `prepare_samples/export_sf2_to_audio.py` is an offline sample-export script. It is not part of this model.
- ChordModel.Chord.Transpose: requires both transposed names to be defined. When index + halfsteps + 12 is negative and not a multiple of 12, the source stores `undefined` in the string fields. That case is characterised by `ChordTheory.TransposeUndefined` but not stored.
- Transposition composes on pitches, not on spellings. Two transpositions land on the semitone of one by the sum (`ChordTheory.TransposeCompose`), but the name may differ, and a step below -12 half-steps can be `undefined`. For example, Bb up one then down one is A#, not Bb (`TransposeFlatUp`, `TransposeNaturalDown`).
- Regular expressions are not executed. The chord pattern is modelled as a grammar whose recogniser is proved sound and complete. The modification group `\(([^)]+)\)` is modelled as a leftmost search.
- JavaScript object-prototype keys are not modelled. In the source, a name such as "constructor" or "toString" would hit the `noteMap` lookups of `noteWithOctave` and `getNoteIndex`. The model treats every name outside the literal maps as unknown.
- JavaScript numbers are modelled as unbounded integers. Fractional half-steps, frets, octaves and MIDI numbers are not modelled, nor is the loss of precision past 2^53. JavaScript's truncating `%` and `Math.floor` division are written out explicitly.
- SoundLayout.MidiToNoteName: for a negative MIDI number that is not a multiple of 12, the source reads the table at a negative index and prints "undefined". The model returns the same text, but its lemmas cover MIDI numbers from 0 up only.
- Ukulele.CoversAllNotes: requires the voicing to be no longer than the tuning. The source always passes voicings of the tuning's length.
- Ukulele.FindAllVoicings: requires no more candidate lists than strings. The source builds one list per string.
- Ukulele.Enumerate: requires the same bound as `FindAllVoicings`. The source's nested closure over `current` and `results` is a method with an array parameter and an accumulated result.
- Ukulele.ChordToFingerPlacements: states which voicing is chosen through `Preferred`: the lowest score, then the lexicographically first of equal scores. That is what the stable in-place sort of the enumeration order yields; the in-place reordering of the `voicings` array itself is not modelled.
- The default tuning parameter `["G", "C", "E", "A"]` is the constant `Ukulele.StandardTuning`. Callers pass it explicitly.
- The expected note lists of `app/validate-chord-notes.ts` are stated once per kind of row, for every root the spelling tables hold. The console reporting of that script is left out.
