/**
 * The expected note lists of the chord-notes harness
 * (app/validate-chord-notes.ts lines 9-68), each stated for every root the
 * spelling tables hold: the harness's row is the instance at its own root.
 */
module ChordOracle {
  import opened Wrappers
  import opened NoteTables
  import opened ChordGrammar
  import opened ChordParse
  import opened DegreeMaps
  import opened ChordTheory
  import opened JsText

  /** `Chord.fromString(name).getNotes()`: the error of `fromString`, or the note list. */
  function NotesOfName(name: string): Result<seq<string>>
  {
    match Interpret(name)
    case Failure(e) => Failure(e)
    case Success(f) => Success(ChordNotes(f.key, f.quality, f.add, f.mod, f.bass))
  }

  /** A note name the tables spell at index `i`. */
  predicate RootIndex(c: string, i: int)
  {
    0 <= i < 12 && (c == NotesDown[i] || c == NotesUp[i])
  }

  /** The table a root's plain intervals are read from: the sharp one for a sharp root. */
  function Scale(c: string): seq<string>
  {
    if '#' in c then NotesUp else NotesDown
  }

  /** The note `s` semitones above the root at index `i`, from the root's own table. */
  function Up(c: string, i: int, s: nat): string
    requires 0 <= i < 12
  {
    Scale(c)[(i + s) % 12]
  }

  /** A sharp-spelled interval: read from the sharp table, or the root itself when that table lacks the root. */
  function Raised(c: string, i: int, s: nat): string
    requires 0 <= i < 12
  {
    if c in NotesUp then NotesUp[(i + s) % 12] else c
  }

  /** Every name the tables hold is a note of the chord grammar. */
  lemma RootNamed(c: string, i: int)
    requires RootIndex(c, i)
    ensures c in NoteNames
  {
    if c == NotesDown[i] {
      assert NotesDown[i] in NoteNames;
    } else {
      assert NotesUp[i] in NoteNames;
    }
  }

  /** A name spelling a well-formed symbol is read as the symbol's fields. */
  lemma Parsed(name: string, sym: Symbol, f: ChordFields)
    requires WellFormed(sym) && Spell(sym) == name && FieldsOf(sym) == f
    ensures Interpret(name) == Success(f)
  {
    RecognizeSpell(sym);
    NoteStart(sym.key);
  }

  /** A root spelled at index `i`: the notes above it, as read from the tables. */
  lemma RootAt(c: string, i: int)
    requires 0 <= i < 12 && (c == NotesDown[i] || c == NotesUp[i])
    ensures forall s: nat {:trigger NoteFromInterval(c, s, false)} ::
      NoteFromInterval(c, s, false) == (if '#' in c then NotesUp else NotesDown)[(i + s) % 12]
    ensures forall s: nat {:trigger NoteFromInterval(c, s, true)} ::
      NoteFromInterval(c, s, true) == if c in NotesUp then NotesUp[(i + s) % 12] else c
  {
    TablesDistinct();
    TableSpelling(i);
    forall s: nat ensures NoteFromInterval(c, s, false) == (if '#' in c then NotesUp else NotesDown)[(i + s) % 12] {
      if '#' in c {
        LookUpAt(NotesUp, i, s);
      } else {
        LookUpAt(NotesDown, i, s);
      }
    }
    forall s: nat ensures NoteFromInterval(c, s, true) == if c in NotesUp then NotesUp[(i + s) % 12] else c {
      if c in NotesUp {
        if c != NotesUp[i] {
          FlatNotInUp(i);
        }
        LookUpAt(NotesUp, i, s);
      } else {
        IndexOfSpec(NotesUp, c);
      }
    }
  }

  /** The notes of `steps` above the root at index `i`, each read from the table its spelling picks. */
  function Spelling(c: string, i: int, steps: seq<Step>): seq<string>
    requires 0 <= i < 12
  {
    if steps == [] then [] else
      var s := steps[0];
      [if s.preferSharps then Raised(c, i, s.semitones) else Up(c, i, s.semitones)] + Spelling(c, i, steps[1..])
  }

  /** Above a root the tables spell, every step's note is the one `Spelling` reads from the tables. */
  lemma {:induction false} SpelledAll(c: string, i: int, steps: seq<Step>)
    requires RootIndex(c, i)
    ensures StepNotes(c, steps) == Spelling(c, i, steps)
  {
    if steps != [] {
      RootAt(c, i);
      SpelledAll(c, i, steps[1..]);
    }
  }

  /** A map holding the second and fifth steps presents them in that order. */
  lemma PresentSecondFifth(s2: Step, s5: Step)
    ensures PresentSteps(map[2 := s2, 5 := s5], OrderedDegrees) == [s2, s5]
  {
    PresentStepsNine(map[2 := s2, 5 := s5]);
  }

  /** A map holding the third and fifth steps presents them in that order. */
  lemma PresentThirdFifth(s3: Step, s5: Step)
    ensures PresentSteps(map[3 := s3, 5 := s5], OrderedDegrees) == [s3, s5]
  {
    PresentStepsNine(map[3 := s3, 5 := s5]);
  }

  /** A map holding the fourth and fifth steps presents them in that order. */
  lemma PresentFourthFifth(s4: Step, s5: Step)
    ensures PresentSteps(map[4 := s4, 5 := s5], OrderedDegrees) == [s4, s5]
  {
    PresentStepsNine(map[4 := s4, 5 := s5]);
  }

  /** A map holding the second, third and fifth steps presents them in that order. */
  lemma PresentSecondThirdFifth(s2: Step, s3: Step, s5: Step)
    ensures PresentSteps(map[2 := s2, 3 := s3, 5 := s5], OrderedDegrees) == [s2, s3, s5]
  {
    PresentStepsNine(map[2 := s2, 3 := s3, 5 := s5]);
  }

  /** A map holding the third, fourth and fifth steps presents them in that order. */
  lemma PresentThirdFourthFifth(s3: Step, s4: Step, s5: Step)
    ensures PresentSteps(map[3 := s3, 4 := s4, 5 := s5], OrderedDegrees) == [s3, s4, s5]
  {
    PresentStepsNine(map[3 := s3, 4 := s4, 5 := s5]);
  }

  /** A map holding the third, fifth and sixth steps presents them in that order. */
  lemma PresentThirdFifthSixth(s3: Step, s5: Step, s6: Step)
    ensures PresentSteps(map[3 := s3, 5 := s5, 6 := s6], OrderedDegrees) == [s3, s5, s6]
  {
    PresentStepsNine(map[3 := s3, 5 := s5, 6 := s6]);
  }

  /** A map holding the third, fifth and seventh steps presents them in that order. */
  lemma PresentThirdFifthSeventh(s3: Step, s5: Step, s7: Step)
    ensures PresentSteps(map[3 := s3, 5 := s5, 7 := s7], OrderedDegrees) == [s3, s5, s7]
  {
    PresentStepsNine(map[3 := s3, 5 := s5, 7 := s7]);
  }

  /** A map holding the third, fifth, seventh and ninth steps presents them in that order. */
  lemma PresentThirdFifthSeventhNinth(s3: Step, s5: Step, s7: Step, s9: Step)
    ensures PresentSteps(map[3 := s3, 5 := s5, 7 := s7, 9 := s9], OrderedDegrees) == [s3, s5, s7, s9]
  {
    PresentStepsNine(map[3 := s3, 5 := s5, 7 := s7, 9 := s9]);
  }

  /** A map holding the third, fifth, seventh, ninth and eleventh steps presents them in that order. */
  lemma PresentThirdFifthSeventhNinthEleventh(s3: Step, s5: Step, s7: Step, s9: Step, s11: Step)
    ensures PresentSteps(map[3 := s3, 5 := s5, 7 := s7, 9 := s9, 11 := s11], OrderedDegrees) == [s3, s5, s7, s9, s11]
  {
    PresentStepsNine(map[3 := s3, 5 := s5, 7 := s7, 9 := s9, 11 := s11]);
  }

  /** A map holding the third, fifth, seventh, ninth, eleventh and thirteenth steps presents them in that order. */
  lemma PresentThirdFifthSeventhNinthEleventhThirteenth(s3: Step, s5: Step, s7: Step, s9: Step, s11: Step, s13: Step)
    ensures PresentSteps(map[3 := s3, 5 := s5, 7 := s7, 9 := s9, 11 := s11, 13 := s13], OrderedDegrees) == [s3, s5, s7, s9, s11, s13]
  {
    PresentStepsNine(map[3 := s3, 5 := s5, 7 := s7, 9 := s9, 11 := s11, 13 := s13]);
  }

  lemma MajorTriadParsed(c: string, i: int)
    requires RootIndex(c, i)
    ensures Interpret(c) == Success(ChordFields(c, "", [], [], c))
  {
    var sym := Symbol(c, false, [], "", [], None);
    assert WellFormed(sym) by {
      RootNamed(c, i);
    }
    assert Spell(sym) == c;
    Parsed(c, sym, ChordFields(c, "", [], [], c));
  }

  lemma MajorTriadChord(c: string)
    ensures ChordNotes(c, "", [], [], c) == [c, c] + StepNotes(c, [Step(4, false), Step(7, false)])
  {
    assert DegreeMap("", [], []) == map[3 := Step(4, false), 5 := Step(7, false)] by {
      assert ChordWrites("", [], []) == [W(3, 4), W(5, 7)];
    }
    PresentThirdFifth(Step(4, false), Step(7, false));
    DegreeNotesSteps(c, DegreeMap("", [], []), OrderedDegrees);
  }

  /** app/validate-chord-notes.ts, lines 11-13: a major triad is the root, its major third and its fifth (C, F#, Bb). */
  lemma MajorTriad(c: string, i: int)
    requires RootIndex(c, i)
    ensures NotesOfName(c) == Success([c, c] + Spelling(c, i, [Step(4, false), Step(7, false)]))
  {
    MajorTriadParsed(c, i);
    MajorTriadChord(c);
    SpelledAll(c, i, [Step(4, false), Step(7, false)]);
  }

  lemma MinorTriadParsed(c: string, i: int)
    requires RootIndex(c, i)
    ensures Interpret(c + "m") == Success(ChordFields(c, "m", [], [], c))
  {
    var sym := Symbol(c, true, [], "", [], None);
    assert WellFormed(sym) by {
      RootNamed(c, i);
    }
    assert Spell(sym) == c + "m";
    Parsed(c + "m", sym, ChordFields(c, "m", [], [], c));
  }

  lemma MinorTriadChord(c: string)
    ensures ChordNotes(c, "m", [], [], c) == [c, c] + StepNotes(c, [Step(3, false), Step(7, false)])
  {
    assert DegreeMap("m", [], []) == map[3 := Step(3, false), 5 := Step(7, false)] by {
      assert ChordWrites("m", [], []) == [W(3, 3), W(5, 7)];
    }
    PresentThirdFifth(Step(3, false), Step(7, false));
    DegreeNotesSteps(c, DegreeMap("m", [], []), OrderedDegrees);
  }

  /** app/validate-chord-notes.ts, lines 16-18: a minor triad is the root, its minor third and its fifth (Cm, F#m, Am). */
  lemma MinorTriad(c: string, i: int)
    requires RootIndex(c, i)
    ensures NotesOfName(c + "m") == Success([c, c] + Spelling(c, i, [Step(3, false), Step(7, false)]))
  {
    MinorTriadParsed(c, i);
    MinorTriadChord(c);
    SpelledAll(c, i, [Step(3, false), Step(7, false)]);
  }

  lemma AugmentedParsed(c: string, i: int)
    requires RootIndex(c, i)
    ensures Interpret(c + "aug") == Success(ChordFields(c, "aug", [], [], c))
  {
    var sym := Symbol(c, false, [], "aug", [], None);
    assert WellFormed(sym) by {
      RootNamed(c, i);
      assert PostQualities[0] == "aug";
    }
    assert Spell(sym) == c + "aug";
    Parsed(c + "aug", sym, ChordFields(c, "aug", [], [], c));
  }

  lemma AugmentedChord(c: string)
    ensures ChordNotes(c, "aug", [], [], c) == [c, c] + StepNotes(c, [Step(4, false), Step(8, true)])
  {
    assert DegreeMap("aug", [], []) == map[3 := Step(4, false), 5 := Step(8, true)] by {
      assert ChordWrites("aug", [], []) == [W(3, 4), Sharp(5, 8)];
    }
    PresentThirdFifth(Step(4, false), Step(8, true));
    DegreeNotesSteps(c, DegreeMap("aug", [], []), OrderedDegrees);
  }

  /** app/validate-chord-notes.ts, line 21: an augmented triad raises the fifth, spelled from the sharp table (Caug). */
  lemma Augmented(c: string, i: int)
    requires RootIndex(c, i)
    ensures NotesOfName(c + "aug") == Success([c, c] + Spelling(c, i, [Step(4, false), Step(8, true)]))
  {
    AugmentedParsed(c, i);
    AugmentedChord(c);
    SpelledAll(c, i, [Step(4, false), Step(8, true)]);
  }

  lemma DiminishedParsed(c: string, i: int)
    requires RootIndex(c, i)
    ensures Interpret(c + "dim") == Success(ChordFields(c, "dim", [], [], c))
  {
    var sym := Symbol(c, false, [], "dim", [], None);
    assert WellFormed(sym) by {
      RootNamed(c, i);
      assert PostQualities[1] == "dim";
    }
    assert Spell(sym) == c + "dim";
    Parsed(c + "dim", sym, ChordFields(c, "dim", [], [], c));
  }

  lemma DiminishedChord(c: string)
    ensures ChordNotes(c, "dim", [], [], c) == [c, c] + StepNotes(c, [Step(3, false), Step(6, false)])
  {
    assert DegreeMap("dim", [], []) == map[3 := Step(3, false), 5 := Step(6, false)] by {
      assert ChordWrites("dim", [], []) == [W(3, 3), W(5, 6)];
    }
    PresentThirdFifth(Step(3, false), Step(6, false));
    DegreeNotesSteps(c, DegreeMap("dim", [], []), OrderedDegrees);
  }

  /** app/validate-chord-notes.ts, line 22: a diminished triad has a minor third and a flat fifth (Cdim). */
  lemma Diminished(c: string, i: int)
    requires RootIndex(c, i)
    ensures NotesOfName(c + "dim") == Success([c, c] + Spelling(c, i, [Step(3, false), Step(6, false)]))
  {
    DiminishedParsed(c, i);
    DiminishedChord(c);
    SpelledAll(c, i, [Step(3, false), Step(6, false)]);
  }

  lemma SuspendedSecondParsed(c: string, i: int)
    requires RootIndex(c, i)
    ensures Interpret(c + "sus2") == Success(ChordFields(c, "sus2", [], [], c))
  {
    var sym := Symbol(c, false, [], "sus2", [], None);
    assert WellFormed(sym) by {
      RootNamed(c, i);
      assert PostQualities[2] == "sus2";
    }
    assert Spell(sym) == c + "sus2";
    Parsed(c + "sus2", sym, ChordFields(c, "sus2", [], [], c));
  }

  lemma SuspendedSecondChord(c: string)
    ensures ChordNotes(c, "sus2", [], [], c) == [c, c] + StepNotes(c, [Step(2, false), Step(7, false)])
  {
    assert DegreeMap("sus2", [], []) == map[2 := Step(2, false), 5 := Step(7, false)] by {
      assert ChordWrites("sus2", [], []) == [W(2, 2), W(5, 7)];
    }
    PresentSecondFifth(Step(2, false), Step(7, false));
    DegreeNotesSteps(c, DegreeMap("sus2", [], []), OrderedDegrees);
  }

  /** app/validate-chord-notes.ts, line 25: sus2 replaces the third by the second (Csus2). */
  lemma SuspendedSecond(c: string, i: int)
    requires RootIndex(c, i)
    ensures NotesOfName(c + "sus2") == Success([c, c] + Spelling(c, i, [Step(2, false), Step(7, false)]))
  {
    SuspendedSecondParsed(c, i);
    SuspendedSecondChord(c);
    SpelledAll(c, i, [Step(2, false), Step(7, false)]);
  }

  lemma SuspendedFourthParsed(c: string, i: int)
    requires RootIndex(c, i)
    ensures Interpret(c + "sus4") == Success(ChordFields(c, "sus4", [], [], c))
  {
    var sym := Symbol(c, false, [], "sus4", [], None);
    assert WellFormed(sym) by {
      RootNamed(c, i);
      assert PostQualities[3] == "sus4";
    }
    assert Spell(sym) == c + "sus4";
    Parsed(c + "sus4", sym, ChordFields(c, "sus4", [], [], c));
  }

  lemma SuspendedFourthChord(c: string)
    ensures ChordNotes(c, "sus4", [], [], c) == [c, c] + StepNotes(c, [Step(5, false), Step(7, false)])
  {
    assert DegreeMap("sus4", [], []) == map[4 := Step(5, false), 5 := Step(7, false)] by {
      assert ChordWrites("sus4", [], []) == [W(4, 5), W(5, 7)];
    }
    PresentFourthFifth(Step(5, false), Step(7, false));
    DegreeNotesSteps(c, DegreeMap("sus4", [], []), OrderedDegrees);
  }

  /** app/validate-chord-notes.ts, line 26: sus4 replaces the third by the fourth (Csus4). */
  lemma SuspendedFourth(c: string, i: int)
    requires RootIndex(c, i)
    ensures NotesOfName(c + "sus4") == Success([c, c] + Spelling(c, i, [Step(5, false), Step(7, false)]))
  {
    SuspendedFourthParsed(c, i);
    SuspendedFourthChord(c);
    SpelledAll(c, i, [Step(5, false), Step(7, false)]);
  }

  lemma DominantSeventhParsed(c: string, i: int)
    requires RootIndex(c, i)
    ensures Interpret(c + "7") == Success(ChordFields(c, "", ["7"], [], c))
  {
    var sym := Symbol(c, false, ["7"], "", [], None);
    assert WellFormed(sym) by {
      RootNamed(c, i);
      assert AddTokens[6] == "7";
    }
    assert Spell(sym) == c + "7" by {
      assert Join(["7"], '/') == "7";
    }
    assert FieldsOf(sym) == ChordFields(c, "", ["7"], [], c) by {
      GlueNothing(["7"]);
    }
    Parsed(c + "7", sym, ChordFields(c, "", ["7"], [], c));
  }

  lemma DominantSeventhChord(c: string)
    ensures ChordNotes(c, "", ["7"], [], c) == [c, c] + StepNotes(c, [Step(4, false), Step(7, false), Step(10, false)])
  {
    assert DegreeMap("", ["7"], []) == map[3 := Step(4, false), 5 := Step(7, false), 7 := Step(10, false)] by {
      assert ChordWrites("", ["7"], []) == [W(3, 4), W(5, 7), W(7, 10)];
    }
    PresentThirdFifthSeventh(Step(4, false), Step(7, false), Step(10, false));
    DegreeNotesSteps(c, DegreeMap("", ["7"], []), OrderedDegrees);
  }

  /** app/validate-chord-notes.ts, line 29: a dominant seventh adds the minor seventh (C7). */
  lemma DominantSeventh(c: string, i: int)
    requires RootIndex(c, i)
    ensures NotesOfName(c + "7") == Success([c, c] + Spelling(c, i, [Step(4, false), Step(7, false), Step(10, false)]))
  {
    DominantSeventhParsed(c, i);
    DominantSeventhChord(c);
    SpelledAll(c, i, [Step(4, false), Step(7, false), Step(10, false)]);
  }

  lemma MajorSeventhParsed(c: string, i: int)
    requires RootIndex(c, i)
    ensures Interpret(c + "maj7") == Success(ChordFields(c, "", ["maj7"], [], c))
  {
    var sym := Symbol(c, false, ["maj7"], "", [], None);
    assert WellFormed(sym) by {
      RootNamed(c, i);
      assert AddTokens[5] == "maj7";
    }
    assert Spell(sym) == c + "maj7" by {
      assert Join(["maj7"], '/') == "maj7";
    }
    assert FieldsOf(sym) == ChordFields(c, "", ["maj7"], [], c) by {
      GlueNothing(["maj7"]);
    }
    Parsed(c + "maj7", sym, ChordFields(c, "", ["maj7"], [], c));
  }

  lemma MajorSeventhChord(c: string)
    ensures ChordNotes(c, "", ["maj7"], [], c) == [c, c] + StepNotes(c, [Step(4, false), Step(7, false), Step(11, false)])
  {
    assert DegreeMap("", ["maj7"], []) == map[3 := Step(4, false), 5 := Step(7, false), 7 := Step(11, false)] by {
      assert ChordWrites("", ["maj7"], []) == [W(3, 4), W(5, 7), W(7, 11)];
    }
    PresentThirdFifthSeventh(Step(4, false), Step(7, false), Step(11, false));
    DegreeNotesSteps(c, DegreeMap("", ["maj7"], []), OrderedDegrees);
  }

  /** app/validate-chord-notes.ts, line 30: maj7 adds the major seventh (Cmaj7). */
  lemma MajorSeventh(c: string, i: int)
    requires RootIndex(c, i)
    ensures NotesOfName(c + "maj7") == Success([c, c] + Spelling(c, i, [Step(4, false), Step(7, false), Step(11, false)]))
  {
    MajorSeventhParsed(c, i);
    MajorSeventhChord(c);
    SpelledAll(c, i, [Step(4, false), Step(7, false), Step(11, false)]);
  }

  lemma MinorSeventhParsed(c: string, i: int)
    requires RootIndex(c, i)
    ensures Interpret(c + "m7") == Success(ChordFields(c, "m", ["7"], [], c))
  {
    var sym := Symbol(c, true, ["7"], "", [], None);
    assert WellFormed(sym) by {
      RootNamed(c, i);
      assert AddTokens[6] == "7";
    }
    assert Spell(sym) == c + "m7" by {
      assert Join(["7"], '/') == "7";
    }
    assert FieldsOf(sym) == ChordFields(c, "m", ["7"], [], c) by {
      GlueNothing(["7"]);
    }
    Parsed(c + "m7", sym, ChordFields(c, "m", ["7"], [], c));
  }

  lemma MinorSeventhChord(c: string)
    ensures ChordNotes(c, "m", ["7"], [], c) == [c, c] + StepNotes(c, [Step(3, false), Step(7, false), Step(10, false)])
  {
    assert DegreeMap("m", ["7"], []) == map[3 := Step(3, false), 5 := Step(7, false), 7 := Step(10, false)] by {
      assert ChordWrites("m", ["7"], []) == [W(3, 3), W(5, 7), W(7, 10)];
    }
    PresentThirdFifthSeventh(Step(3, false), Step(7, false), Step(10, false));
    DegreeNotesSteps(c, DegreeMap("m", ["7"], []), OrderedDegrees);
  }

  /** app/validate-chord-notes.ts, line 31: a minor seventh (Cm7). */
  lemma MinorSeventh(c: string, i: int)
    requires RootIndex(c, i)
    ensures NotesOfName(c + "m7") == Success([c, c] + Spelling(c, i, [Step(3, false), Step(7, false), Step(10, false)]))
  {
    MinorSeventhParsed(c, i);
    MinorSeventhChord(c);
    SpelledAll(c, i, [Step(3, false), Step(7, false), Step(10, false)]);
  }

  lemma MinorMajorSeventhParsed(c: string, i: int)
    requires RootIndex(c, i)
    ensures Interpret(c + "mmaj7") == Success(ChordFields(c, "m", ["maj7"], [], c))
  {
    var sym := Symbol(c, true, ["maj7"], "", [], None);
    assert WellFormed(sym) by {
      RootNamed(c, i);
      assert AddTokens[5] == "maj7";
    }
    assert Spell(sym) == c + "mmaj7" by {
      assert Join(["maj7"], '/') == "maj7";
    }
    assert FieldsOf(sym) == ChordFields(c, "m", ["maj7"], [], c) by {
      GlueNothing(["maj7"]);
    }
    Parsed(c + "mmaj7", sym, ChordFields(c, "m", ["maj7"], [], c));
  }

  lemma MinorMajorSeventhChord(c: string)
    ensures ChordNotes(c, "m", ["maj7"], [], c) == [c, c] + StepNotes(c, [Step(3, false), Step(7, false), Step(11, false)])
  {
    assert DegreeMap("m", ["maj7"], []) == map[3 := Step(3, false), 5 := Step(7, false), 7 := Step(11, false)] by {
      assert ChordWrites("m", ["maj7"], []) == [W(3, 3), W(5, 7), W(7, 11)];
    }
    PresentThirdFifthSeventh(Step(3, false), Step(7, false), Step(11, false));
    DegreeNotesSteps(c, DegreeMap("m", ["maj7"], []), OrderedDegrees);
  }

  /** app/validate-chord-notes.ts, line 32: 'm' followed by 'maj7' is a minor chord with a major seventh (Cmmaj7). */
  lemma MinorMajorSeventh(c: string, i: int)
    requires RootIndex(c, i)
    ensures NotesOfName(c + "mmaj7") == Success([c, c] + Spelling(c, i, [Step(3, false), Step(7, false), Step(11, false)]))
  {
    MinorMajorSeventhParsed(c, i);
    MinorMajorSeventhChord(c);
    SpelledAll(c, i, [Step(3, false), Step(7, false), Step(11, false)]);
  }

  lemma DominantNinthParsed(c: string, i: int)
    requires RootIndex(c, i)
    ensures Interpret(c + "9") == Success(ChordFields(c, "", ["9"], [], c))
  {
    var sym := Symbol(c, false, ["9"], "", [], None);
    assert WellFormed(sym) by {
      RootNamed(c, i);
      assert AddTokens[8] == "9";
    }
    assert Spell(sym) == c + "9" by {
      assert Join(["9"], '/') == "9";
    }
    assert FieldsOf(sym) == ChordFields(c, "", ["9"], [], c) by {
      GlueNothing(["9"]);
    }
    Parsed(c + "9", sym, ChordFields(c, "", ["9"], [], c));
  }

  lemma DominantNinthChord(c: string)
    ensures ChordNotes(c, "", ["9"], [], c) == [c, c] + StepNotes(c, [Step(4, false), Step(7, false), Step(10, false), Step(14, false)])
  {
    assert DegreeMap("", ["9"], []) == map[3 := Step(4, false), 5 := Step(7, false), 7 := Step(10, false), 9 := Step(14, false)] by {
      assert ChordWrites("", ["9"], []) == [W(3, 4), W(5, 7), W(7, 10), W(9, 14)];
    }
    PresentThirdFifthSeventhNinth(Step(4, false), Step(7, false), Step(10, false), Step(14, false));
    DegreeNotesSteps(c, DegreeMap("", ["9"], []), OrderedDegrees);
  }

  /** app/validate-chord-notes.ts, line 35: a ninth brings the minor seventh with it (C9). */
  lemma DominantNinth(c: string, i: int)
    requires RootIndex(c, i)
    ensures NotesOfName(c + "9") == Success([c, c] + Spelling(c, i, [Step(4, false), Step(7, false), Step(10, false), Step(14, false)]))
  {
    DominantNinthParsed(c, i);
    DominantNinthChord(c);
    SpelledAll(c, i, [Step(4, false), Step(7, false), Step(10, false), Step(14, false)]);
  }

  lemma MajorNinthParsed(c: string, i: int)
    requires RootIndex(c, i)
    ensures Interpret(c + "maj9") == Success(ChordFields(c, "", ["maj9"], [], c))
  {
    var sym := Symbol(c, false, ["maj9"], "", [], None);
    assert WellFormed(sym) by {
      RootNamed(c, i);
      assert AddTokens[7] == "maj9";
    }
    assert Spell(sym) == c + "maj9" by {
      assert Join(["maj9"], '/') == "maj9";
    }
    assert FieldsOf(sym) == ChordFields(c, "", ["maj9"], [], c) by {
      GlueNothing(["maj9"]);
    }
    Parsed(c + "maj9", sym, ChordFields(c, "", ["maj9"], [], c));
  }

  lemma MajorNinthChord(c: string)
    ensures ChordNotes(c, "", ["maj9"], [], c) == [c, c] + StepNotes(c, [Step(4, false), Step(7, false), Step(11, false), Step(14, false)])
  {
    assert DegreeMap("", ["maj9"], []) == map[3 := Step(4, false), 5 := Step(7, false), 7 := Step(11, false), 9 := Step(14, false)] by {
      assert ChordWrites("", ["maj9"], []) == [W(3, 4), W(5, 7), W(7, 11), W(9, 14)];
    }
    PresentThirdFifthSeventhNinth(Step(4, false), Step(7, false), Step(11, false), Step(14, false));
    DegreeNotesSteps(c, DegreeMap("", ["maj9"], []), OrderedDegrees);
  }

  /** app/validate-chord-notes.ts, lines 36, 66: maj9 brings the major seventh with it (Cmaj9). */
  lemma MajorNinth(c: string, i: int)
    requires RootIndex(c, i)
    ensures NotesOfName(c + "maj9") == Success([c, c] + Spelling(c, i, [Step(4, false), Step(7, false), Step(11, false), Step(14, false)]))
  {
    MajorNinthParsed(c, i);
    MajorNinthChord(c);
    SpelledAll(c, i, [Step(4, false), Step(7, false), Step(11, false), Step(14, false)]);
  }

  lemma EleventhParsed(c: string, i: int)
    requires RootIndex(c, i)
    ensures Interpret(c + "11") == Success(ChordFields(c, "", ["11"], [], c))
  {
    var sym := Symbol(c, false, ["11"], "", [], None);
    assert WellFormed(sym) by {
      RootNamed(c, i);
      assert AddTokens[9] == "11";
    }
    assert Spell(sym) == c + "11" by {
      assert Join(["11"], '/') == "11";
    }
    assert FieldsOf(sym) == ChordFields(c, "", ["11"], [], c) by {
      GlueNothing(["11"]);
    }
    Parsed(c + "11", sym, ChordFields(c, "", ["11"], [], c));
  }

  lemma EleventhChord(c: string)
    ensures ChordNotes(c, "", ["11"], [], c) == [c, c] + StepNotes(c, [Step(4, false), Step(7, false), Step(10, false), Step(14, false), Step(17, false)])
  {
    assert DegreeMap("", ["11"], []) == map[3 := Step(4, false), 5 := Step(7, false), 7 := Step(10, false), 9 := Step(14, false), 11 := Step(17, false)] by {
      assert ChordWrites("", ["11"], []) == [W(3, 4), W(5, 7), W(7, 10), W(9, 14), W(11, 17)];
    }
    PresentThirdFifthSeventhNinthEleventh(Step(4, false), Step(7, false), Step(10, false), Step(14, false), Step(17, false));
    DegreeNotesSteps(c, DegreeMap("", ["11"], []), OrderedDegrees);
  }

  /** app/validate-chord-notes.ts, line 37: an eleventh brings the seventh and ninth with it (C11). */
  lemma Eleventh(c: string, i: int)
    requires RootIndex(c, i)
    ensures NotesOfName(c + "11") == Success([c, c] + Spelling(c, i, [Step(4, false), Step(7, false), Step(10, false), Step(14, false), Step(17, false)]))
  {
    EleventhParsed(c, i);
    EleventhChord(c);
    SpelledAll(c, i, [Step(4, false), Step(7, false), Step(10, false), Step(14, false), Step(17, false)]);
  }

  lemma ThirteenthParsed(c: string, i: int)
    requires RootIndex(c, i)
    ensures Interpret(c + "13") == Success(ChordFields(c, "", ["13"], [], c))
  {
    var sym := Symbol(c, false, ["13"], "", [], None);
    assert WellFormed(sym) by {
      RootNamed(c, i);
      assert AddTokens[10] == "13";
    }
    assert Spell(sym) == c + "13" by {
      assert Join(["13"], '/') == "13";
    }
    assert FieldsOf(sym) == ChordFields(c, "", ["13"], [], c) by {
      GlueNothing(["13"]);
    }
    Parsed(c + "13", sym, ChordFields(c, "", ["13"], [], c));
  }

  lemma ThirteenthChord(c: string)
    ensures ChordNotes(c, "", ["13"], [], c) == [c, c] + StepNotes(c, [Step(4, false), Step(7, false), Step(10, false), Step(14, false), Step(17, false), Step(21, false)])
  {
    assert DegreeMap("", ["13"], []) == map[3 := Step(4, false), 5 := Step(7, false), 7 := Step(10, false), 9 := Step(14, false), 11 := Step(17, false), 13 := Step(21, false)] by {
      assert ChordWrites("", ["13"], []) == [W(3, 4), W(5, 7), W(7, 10), W(9, 14), W(11, 17), W(13, 21)];
    }
    PresentThirdFifthSeventhNinthEleventhThirteenth(Step(4, false), Step(7, false), Step(10, false), Step(14, false), Step(17, false), Step(21, false));
    DegreeNotesSteps(c, DegreeMap("", ["13"], []), OrderedDegrees);
  }

  /** app/validate-chord-notes.ts, line 38: a thirteenth brings the seventh, ninth and eleventh with it (C13). */
  lemma Thirteenth(c: string, i: int)
    requires RootIndex(c, i)
    ensures NotesOfName(c + "13") == Success([c, c] + Spelling(c, i, [Step(4, false), Step(7, false), Step(10, false), Step(14, false), Step(17, false), Step(21, false)]))
  {
    ThirteenthParsed(c, i);
    ThirteenthChord(c);
    SpelledAll(c, i, [Step(4, false), Step(7, false), Step(10, false), Step(14, false), Step(17, false), Step(21, false)]);
  }

  lemma MajorSixthParsed(c: string, i: int)
    requires RootIndex(c, i)
    ensures Interpret(c + "6") == Success(ChordFields(c, "", ["6"], [], c))
  {
    var sym := Symbol(c, false, ["6"], "", [], None);
    assert WellFormed(sym) by {
      RootNamed(c, i);
      assert AddTokens[3] == "6";
    }
    assert Spell(sym) == c + "6" by {
      assert Join(["6"], '/') == "6";
    }
    assert FieldsOf(sym) == ChordFields(c, "", ["6"], [], c) by {
      GlueNothing(["6"]);
    }
    Parsed(c + "6", sym, ChordFields(c, "", ["6"], [], c));
  }

  lemma MajorSixthChord(c: string)
    ensures ChordNotes(c, "", ["6"], [], c) == [c, c] + StepNotes(c, [Step(4, false), Step(7, false), Step(9, false)])
  {
    assert DegreeMap("", ["6"], []) == map[3 := Step(4, false), 5 := Step(7, false), 6 := Step(9, false)] by {
      assert ChordWrites("", ["6"], []) == [W(3, 4), W(5, 7), W(6, 9)];
    }
    PresentThirdFifthSixth(Step(4, false), Step(7, false), Step(9, false));
    DegreeNotesSteps(c, DegreeMap("", ["6"], []), OrderedDegrees);
  }

  /** app/validate-chord-notes.ts, line 41: '6' on a major chord is the major sixth (C6). */
  lemma MajorSixth(c: string, i: int)
    requires RootIndex(c, i)
    ensures NotesOfName(c + "6") == Success([c, c] + Spelling(c, i, [Step(4, false), Step(7, false), Step(9, false)]))
  {
    MajorSixthParsed(c, i);
    MajorSixthChord(c);
    SpelledAll(c, i, [Step(4, false), Step(7, false), Step(9, false)]);
  }

  lemma MinorSixthParsed(c: string, i: int)
    requires RootIndex(c, i)
    ensures Interpret(c + "m6") == Success(ChordFields(c, "m", ["6"], [], c))
  {
    var sym := Symbol(c, true, ["6"], "", [], None);
    assert WellFormed(sym) by {
      RootNamed(c, i);
      assert AddTokens[3] == "6";
    }
    assert Spell(sym) == c + "m6" by {
      assert Join(["6"], '/') == "6";
    }
    assert FieldsOf(sym) == ChordFields(c, "m", ["6"], [], c) by {
      GlueNothing(["6"]);
    }
    Parsed(c + "m6", sym, ChordFields(c, "m", ["6"], [], c));
  }

  lemma MinorSixthChord(c: string)
    ensures ChordNotes(c, "m", ["6"], [], c) == [c, c] + StepNotes(c, [Step(3, false), Step(7, false), Step(8, false)])
  {
    assert DegreeMap("m", ["6"], []) == map[3 := Step(3, false), 5 := Step(7, false), 6 := Step(8, false)] by {
      assert ChordWrites("m", ["6"], []) == [W(3, 3), W(5, 7), W(6, 8)];
    }
    PresentThirdFifthSixth(Step(3, false), Step(7, false), Step(8, false));
    DegreeNotesSteps(c, DegreeMap("m", ["6"], []), OrderedDegrees);
  }

  /** app/validate-chord-notes.ts, line 42: '6' on a minor chord is the minor sixth (Cm6). */
  lemma MinorSixth(c: string, i: int)
    requires RootIndex(c, i)
    ensures NotesOfName(c + "m6") == Success([c, c] + Spelling(c, i, [Step(3, false), Step(7, false), Step(8, false)]))
  {
    MinorSixthParsed(c, i);
    MinorSixthChord(c);
    SpelledAll(c, i, [Step(3, false), Step(7, false), Step(8, false)]);
  }

  lemma MinorWithMajorSixthParsed(c: string, i: int)
    requires RootIndex(c, i)
    ensures Interpret(c + "mmaj6") == Success(ChordFields(c, "m", ["maj6"], [], c))
  {
    var sym := Symbol(c, true, ["maj6"], "", [], None);
    assert WellFormed(sym) by {
      RootNamed(c, i);
      assert AddTokens[4] == "maj6";
    }
    assert Spell(sym) == c + "mmaj6" by {
      assert Join(["maj6"], '/') == "maj6";
    }
    assert FieldsOf(sym) == ChordFields(c, "m", ["maj6"], [], c) by {
      GlueNothing(["maj6"]);
    }
    Parsed(c + "mmaj6", sym, ChordFields(c, "m", ["maj6"], [], c));
  }

  lemma MinorWithMajorSixthChord(c: string)
    ensures ChordNotes(c, "m", ["maj6"], [], c) == [c, c] + StepNotes(c, [Step(3, false), Step(7, false), Step(9, false)])
  {
    assert DegreeMap("m", ["maj6"], []) == map[3 := Step(3, false), 5 := Step(7, false), 6 := Step(9, false)] by {
      assert ChordWrites("m", ["maj6"], []) == [W(3, 3), W(5, 7), W(6, 9)];
    }
    PresentThirdFifthSixth(Step(3, false), Step(7, false), Step(9, false));
    DegreeNotesSteps(c, DegreeMap("m", ["maj6"], []), OrderedDegrees);
  }

  /** app/validate-chord-notes.ts, line 43: 'maj6' is the major sixth even on a minor chord (Cmmaj6). */
  lemma MinorWithMajorSixth(c: string, i: int)
    requires RootIndex(c, i)
    ensures NotesOfName(c + "mmaj6") == Success([c, c] + Spelling(c, i, [Step(3, false), Step(7, false), Step(9, false)]))
  {
    MinorWithMajorSixthParsed(c, i);
    MinorWithMajorSixthChord(c);
    SpelledAll(c, i, [Step(3, false), Step(7, false), Step(9, false)]);
  }

  lemma SeventhFlatFifthParsed(c: string, i: int)
    requires RootIndex(c, i)
    ensures Interpret(c + "7(b5)") == Success(ChordFields(c, "", ["7"], ["b5"], c))
  {
    var sym := Symbol(c, false, ["7"], "", ["b5"], None);
    assert WellFormed(sym) by {
      RootNamed(c, i);
      assert AddTokens[6] == "7";
      assert ModTokens[3] == "b5";
    }
    assert Spell(sym) == c + "7(b5)" by {
      assert Join(["7"], '/') == "7";
      assert Join(["b5"], '/') == "b5";
    }
    assert FieldsOf(sym) == ChordFields(c, "", ["7"], ["b5"], c) by {
      GlueNothing(["7"]);
    }
    Parsed(c + "7(b5)", sym, ChordFields(c, "", ["7"], ["b5"], c));
  }

  lemma SeventhFlatFifthChord(c: string)
    ensures ChordNotes(c, "", ["7"], ["b5"], c) == [c, c] + StepNotes(c, [Step(4, false), Step(6, false), Step(10, false)])
  {
    assert DegreeMap("", ["7"], ["b5"]) == map[3 := Step(4, false), 5 := Step(6, false), 7 := Step(10, false)] by {
      assert ChordWrites("", ["7"], ["b5"]) == [W(3, 4), W(5, 7), W(7, 10), W(5, 6)];
    }
    PresentThirdFifthSeventh(Step(4, false), Step(6, false), Step(10, false));
    DegreeNotesSteps(c, DegreeMap("", ["7"], ["b5"]), OrderedDegrees);
  }

  /** app/validate-chord-notes.ts, line 46: the b5 modification overrides the default fifth (C7(b5)). */
  lemma SeventhFlatFifth(c: string, i: int)
    requires RootIndex(c, i)
    ensures NotesOfName(c + "7(b5)") == Success([c, c] + Spelling(c, i, [Step(4, false), Step(6, false), Step(10, false)]))
  {
    SeventhFlatFifthParsed(c, i);
    SeventhFlatFifthChord(c);
    SpelledAll(c, i, [Step(4, false), Step(6, false), Step(10, false)]);
  }

  lemma SeventhSharpFifthParsed(c: string, i: int)
    requires RootIndex(c, i)
    ensures Interpret(c + "7(#5)") == Success(ChordFields(c, "", ["7"], ["#5"], c))
  {
    var sym := Symbol(c, false, ["7"], "", ["#5"], None);
    assert WellFormed(sym) by {
      RootNamed(c, i);
      assert AddTokens[6] == "7";
      assert ModTokens[2] == "#5";
    }
    assert Spell(sym) == c + "7(#5)" by {
      assert Join(["7"], '/') == "7";
      assert Join(["#5"], '/') == "#5";
    }
    assert FieldsOf(sym) == ChordFields(c, "", ["7"], ["#5"], c) by {
      GlueNothing(["7"]);
    }
    Parsed(c + "7(#5)", sym, ChordFields(c, "", ["7"], ["#5"], c));
  }

  lemma SeventhSharpFifthChord(c: string)
    ensures ChordNotes(c, "", ["7"], ["#5"], c) == [c, c] + StepNotes(c, [Step(4, false), Step(8, true), Step(10, false)])
  {
    assert DegreeMap("", ["7"], ["#5"]) == map[3 := Step(4, false), 5 := Step(8, true), 7 := Step(10, false)] by {
      assert ChordWrites("", ["7"], ["#5"]) == [W(3, 4), W(5, 7), W(7, 10), Sharp(5, 8)];
    }
    PresentThirdFifthSeventh(Step(4, false), Step(8, true), Step(10, false));
    DegreeNotesSteps(c, DegreeMap("", ["7"], ["#5"]), OrderedDegrees);
  }

  /** app/validate-chord-notes.ts, line 47: the #5 modification overrides the fifth with a sharp spelling (C7(#5)). */
  lemma SeventhSharpFifth(c: string, i: int)
    requires RootIndex(c, i)
    ensures NotesOfName(c + "7(#5)") == Success([c, c] + Spelling(c, i, [Step(4, false), Step(8, true), Step(10, false)]))
  {
    SeventhSharpFifthParsed(c, i);
    SeventhSharpFifthChord(c);
    SpelledAll(c, i, [Step(4, false), Step(8, true), Step(10, false)]);
  }

  lemma SeventhFlatNinthParsed(c: string, i: int)
    requires RootIndex(c, i)
    ensures Interpret(c + "7(b9)") == Success(ChordFields(c, "", ["7"], ["b9"], c))
  {
    var sym := Symbol(c, false, ["7"], "", ["b9"], None);
    assert WellFormed(sym) by {
      RootNamed(c, i);
      assert AddTokens[6] == "7";
      assert ModTokens[5] == "b9";
    }
    assert Spell(sym) == c + "7(b9)" by {
      assert Join(["7"], '/') == "7";
      assert Join(["b9"], '/') == "b9";
    }
    assert FieldsOf(sym) == ChordFields(c, "", ["7"], ["b9"], c) by {
      GlueNothing(["7"]);
    }
    Parsed(c + "7(b9)", sym, ChordFields(c, "", ["7"], ["b9"], c));
  }

  lemma SeventhFlatNinthChord(c: string)
    ensures ChordNotes(c, "", ["7"], ["b9"], c) == [c, c] + StepNotes(c, [Step(4, false), Step(7, false), Step(10, false), Step(13, false)])
  {
    assert DegreeMap("", ["7"], ["b9"]) == map[3 := Step(4, false), 5 := Step(7, false), 7 := Step(10, false), 9 := Step(13, false)] by {
      assert ChordWrites("", ["7"], ["b9"]) == [W(3, 4), W(5, 7), W(7, 10), W(9, 13)];
    }
    PresentThirdFifthSeventhNinth(Step(4, false), Step(7, false), Step(10, false), Step(13, false));
    DegreeNotesSteps(c, DegreeMap("", ["7"], ["b9"]), OrderedDegrees);
  }

  /** app/validate-chord-notes.ts, line 48: the b9 modification adds the minor ninth (C7(b9)). */
  lemma SeventhFlatNinth(c: string, i: int)
    requires RootIndex(c, i)
    ensures NotesOfName(c + "7(b9)") == Success([c, c] + Spelling(c, i, [Step(4, false), Step(7, false), Step(10, false), Step(13, false)]))
  {
    SeventhFlatNinthParsed(c, i);
    SeventhFlatNinthChord(c);
    SpelledAll(c, i, [Step(4, false), Step(7, false), Step(10, false), Step(13, false)]);
  }

  lemma SeventhSharpNinthParsed(c: string, i: int)
    requires RootIndex(c, i)
    ensures Interpret(c + "7(#9)") == Success(ChordFields(c, "", ["7"], ["#9"], c))
  {
    var sym := Symbol(c, false, ["7"], "", ["#9"], None);
    assert WellFormed(sym) by {
      RootNamed(c, i);
      assert AddTokens[6] == "7";
      assert ModTokens[6] == "#9";
    }
    assert Spell(sym) == c + "7(#9)" by {
      assert Join(["7"], '/') == "7";
      assert Join(["#9"], '/') == "#9";
    }
    assert FieldsOf(sym) == ChordFields(c, "", ["7"], ["#9"], c) by {
      GlueNothing(["7"]);
    }
    Parsed(c + "7(#9)", sym, ChordFields(c, "", ["7"], ["#9"], c));
  }

  lemma SeventhSharpNinthChord(c: string)
    ensures ChordNotes(c, "", ["7"], ["#9"], c) == [c, c] + StepNotes(c, [Step(4, false), Step(7, false), Step(10, false), Step(15, true)])
  {
    assert DegreeMap("", ["7"], ["#9"]) == map[3 := Step(4, false), 5 := Step(7, false), 7 := Step(10, false), 9 := Step(15, true)] by {
      assert ChordWrites("", ["7"], ["#9"]) == [W(3, 4), W(5, 7), W(7, 10), Sharp(9, 15)];
    }
    PresentThirdFifthSeventhNinth(Step(4, false), Step(7, false), Step(10, false), Step(15, true));
    DegreeNotesSteps(c, DegreeMap("", ["7"], ["#9"]), OrderedDegrees);
  }

  /** app/validate-chord-notes.ts, line 49: the #9 modification adds the augmented ninth, sharp-spelled (C7(#9)). */
  lemma SeventhSharpNinth(c: string, i: int)
    requires RootIndex(c, i)
    ensures NotesOfName(c + "7(#9)") == Success([c, c] + Spelling(c, i, [Step(4, false), Step(7, false), Step(10, false), Step(15, true)]))
  {
    SeventhSharpNinthParsed(c, i);
    SeventhSharpNinthChord(c);
    SpelledAll(c, i, [Step(4, false), Step(7, false), Step(10, false), Step(15, true)]);
  }

  lemma SeventhSharpEleventhParsed(c: string, i: int)
    requires RootIndex(c, i)
    ensures Interpret(c + "7(#11)") == Success(ChordFields(c, "", ["7"], ["#11"], c))
  {
    var sym := Symbol(c, false, ["7"], "", ["#11"], None);
    assert WellFormed(sym) by {
      RootNamed(c, i);
      assert AddTokens[6] == "7";
      assert ModTokens[7] == "#11";
    }
    assert Spell(sym) == c + "7(#11)" by {
      assert Join(["7"], '/') == "7";
      assert Join(["#11"], '/') == "#11";
    }
    assert FieldsOf(sym) == ChordFields(c, "", ["7"], ["#11"], c) by {
      GlueNothing(["7"]);
    }
    Parsed(c + "7(#11)", sym, ChordFields(c, "", ["7"], ["#11"], c));
  }

  lemma SeventhSharpEleventhChord(c: string)
    ensures ChordNotes(c, "", ["7"], ["#11"], c) == [c, c] + StepNotes(c, [Step(4, false), Step(7, false), Step(10, false), Step(14, false), Step(18, true)])
  {
    assert DegreeMap("", ["7"], ["#11"]) == map[3 := Step(4, false), 5 := Step(7, false), 7 := Step(10, false), 9 := Step(14, false), 11 := Step(18, true)] by {
      assert ChordWrites("", ["7"], ["#11"]) == [W(3, 4), W(5, 7), W(7, 10), W(9, 14), Sharp(11, 18)];
    }
    PresentThirdFifthSeventhNinthEleventh(Step(4, false), Step(7, false), Step(10, false), Step(14, false), Step(18, true));
    DegreeNotesSteps(c, DegreeMap("", ["7"], ["#11"]), OrderedDegrees);
  }

  /** app/validate-chord-notes.ts, line 50: the #11 modification adds the ninth and a sharp-spelled augmented eleventh (C7(#11)). */
  lemma SeventhSharpEleventh(c: string, i: int)
    requires RootIndex(c, i)
    ensures NotesOfName(c + "7(#11)") == Success([c, c] + Spelling(c, i, [Step(4, false), Step(7, false), Step(10, false), Step(14, false), Step(18, true)]))
  {
    SeventhSharpEleventhParsed(c, i);
    SeventhSharpEleventhChord(c);
    SpelledAll(c, i, [Step(4, false), Step(7, false), Step(10, false), Step(14, false), Step(18, true)]);
  }

  lemma SeventhFlatThirteenthParsed(c: string, i: int)
    requires RootIndex(c, i)
    ensures Interpret(c + "7(b13)") == Success(ChordFields(c, "", ["7"], ["b13"], c))
  {
    var sym := Symbol(c, false, ["7"], "", ["b13"], None);
    assert WellFormed(sym) by {
      RootNamed(c, i);
      assert AddTokens[6] == "7";
      assert ModTokens[8] == "b13";
    }
    assert Spell(sym) == c + "7(b13)" by {
      assert Join(["7"], '/') == "7";
      assert Join(["b13"], '/') == "b13";
    }
    assert FieldsOf(sym) == ChordFields(c, "", ["7"], ["b13"], c) by {
      GlueNothing(["7"]);
    }
    Parsed(c + "7(b13)", sym, ChordFields(c, "", ["7"], ["b13"], c));
  }

  lemma SeventhFlatThirteenthChord(c: string)
    ensures ChordNotes(c, "", ["7"], ["b13"], c) == [c, c] + StepNotes(c, [Step(4, false), Step(7, false), Step(10, false), Step(14, false), Step(17, false), Step(20, false)])
  {
    assert DegreeMap("", ["7"], ["b13"]) == map[3 := Step(4, false), 5 := Step(7, false), 7 := Step(10, false), 9 := Step(14, false), 11 := Step(17, false), 13 := Step(20, false)] by {
      assert ChordWrites("", ["7"], ["b13"]) == [W(3, 4), W(5, 7), W(7, 10), W(9, 14), W(11, 17), W(13, 20)];
    }
    PresentThirdFifthSeventhNinthEleventhThirteenth(Step(4, false), Step(7, false), Step(10, false), Step(14, false), Step(17, false), Step(20, false));
    DegreeNotesSteps(c, DegreeMap("", ["7"], ["b13"]), OrderedDegrees);
  }

  /** app/validate-chord-notes.ts, line 51: the b13 modification adds the ninth, the eleventh and the minor thirteenth (C7(b13)). */
  lemma SeventhFlatThirteenth(c: string, i: int)
    requires RootIndex(c, i)
    ensures NotesOfName(c + "7(b13)") == Success([c, c] + Spelling(c, i, [Step(4, false), Step(7, false), Step(10, false), Step(14, false), Step(17, false), Step(20, false)]))
  {
    SeventhFlatThirteenthParsed(c, i);
    SeventhFlatThirteenthChord(c);
    SpelledAll(c, i, [Step(4, false), Step(7, false), Step(10, false), Step(14, false), Step(17, false), Step(20, false)]);
  }

  lemma MinorFlatFifthParsed(c: string, i: int)
    requires RootIndex(c, i)
    ensures Interpret(c + "m(b5)") == Success(ChordFields(c, "m", [], ["b5"], c))
  {
    var sym := Symbol(c, true, [], "", ["b5"], None);
    assert WellFormed(sym) by {
      RootNamed(c, i);
      assert ModTokens[3] == "b5";
    }
    assert Spell(sym) == c + "m(b5)" by {
      assert Join(["b5"], '/') == "b5";
    }
    Parsed(c + "m(b5)", sym, ChordFields(c, "m", [], ["b5"], c));
  }

  lemma MinorFlatFifthChord(c: string)
    ensures ChordNotes(c, "m", [], ["b5"], c) == [c, c] + StepNotes(c, [Step(3, false), Step(6, false)])
  {
    assert DegreeMap("m", [], ["b5"]) == map[3 := Step(3, false), 5 := Step(6, false)] by {
      assert ChordWrites("m", [], ["b5"]) == [W(3, 3), W(5, 7), W(5, 6)];
    }
    PresentThirdFifth(Step(3, false), Step(6, false));
    DegreeNotesSteps(c, DegreeMap("m", [], ["b5"]), OrderedDegrees);
  }

  /** app/validate-chord-notes.ts, line 52: a modification outranks the quality's fifth (Dm(b5)). */
  lemma MinorFlatFifth(c: string, i: int)
    requires RootIndex(c, i)
    ensures NotesOfName(c + "m(b5)") == Success([c, c] + Spelling(c, i, [Step(3, false), Step(6, false)]))
  {
    MinorFlatFifthParsed(c, i);
    MinorFlatFifthChord(c);
    SpelledAll(c, i, [Step(3, false), Step(6, false)]);
  }

  lemma HalfDiminishedParsed(c: string, i: int)
    requires RootIndex(c, i)
    ensures Interpret(c + "m7(b5)") == Success(ChordFields(c, "m", ["7"], ["b5"], c))
  {
    var sym := Symbol(c, true, ["7"], "", ["b5"], None);
    assert WellFormed(sym) by {
      RootNamed(c, i);
      assert AddTokens[6] == "7";
      assert ModTokens[3] == "b5";
    }
    assert Spell(sym) == c + "m7(b5)" by {
      assert Join(["7"], '/') == "7";
      assert Join(["b5"], '/') == "b5";
    }
    assert FieldsOf(sym) == ChordFields(c, "m", ["7"], ["b5"], c) by {
      GlueNothing(["7"]);
    }
    Parsed(c + "m7(b5)", sym, ChordFields(c, "m", ["7"], ["b5"], c));
  }

  lemma HalfDiminishedChord(c: string)
    ensures ChordNotes(c, "m", ["7"], ["b5"], c) == [c, c] + StepNotes(c, [Step(3, false), Step(6, false), Step(10, false)])
  {
    assert DegreeMap("m", ["7"], ["b5"]) == map[3 := Step(3, false), 5 := Step(6, false), 7 := Step(10, false)] by {
      assert ChordWrites("m", ["7"], ["b5"]) == [W(3, 3), W(5, 7), W(7, 10), W(5, 6)];
    }
    PresentThirdFifthSeventh(Step(3, false), Step(6, false), Step(10, false));
    DegreeNotesSteps(c, DegreeMap("m", ["7"], ["b5"]), OrderedDegrees);
  }

  /** app/validate-chord-notes.ts, line 53: a minor seventh with a flat fifth (Dm7(b5)). */
  lemma HalfDiminished(c: string, i: int)
    requires RootIndex(c, i)
    ensures NotesOfName(c + "m7(b5)") == Success([c, c] + Spelling(c, i, [Step(3, false), Step(6, false), Step(10, false)]))
  {
    HalfDiminishedParsed(c, i);
    HalfDiminishedChord(c);
    SpelledAll(c, i, [Step(3, false), Step(6, false), Step(10, false)]);
  }

  lemma AddSecondParsed(c: string, i: int)
    requires RootIndex(c, i)
    ensures Interpret(c + "2") == Success(ChordFields(c, "", ["2"], [], c))
  {
    var sym := Symbol(c, false, ["2"], "", [], None);
    assert WellFormed(sym) by {
      RootNamed(c, i);
      assert AddTokens[0] == "2";
    }
    assert Spell(sym) == c + "2" by {
      assert Join(["2"], '/') == "2";
    }
    assert FieldsOf(sym) == ChordFields(c, "", ["2"], [], c) by {
      GlueNothing(["2"]);
    }
    Parsed(c + "2", sym, ChordFields(c, "", ["2"], [], c));
  }

  lemma AddSecondChord(c: string)
    ensures ChordNotes(c, "", ["2"], [], c) == [c, c] + StepNotes(c, [Step(2, false), Step(4, false), Step(7, false)])
  {
    assert DegreeMap("", ["2"], []) == map[2 := Step(2, false), 3 := Step(4, false), 5 := Step(7, false)] by {
      assert ChordWrites("", ["2"], []) == [W(3, 4), W(5, 7), W(2, 2)];
    }
    PresentSecondThirdFifth(Step(2, false), Step(4, false), Step(7, false));
    DegreeNotesSteps(c, DegreeMap("", ["2"], []), OrderedDegrees);
  }

  /** app/validate-chord-notes.ts, line 56: '2' adds the second below the third (C2). */
  lemma AddSecond(c: string, i: int)
    requires RootIndex(c, i)
    ensures NotesOfName(c + "2") == Success([c, c] + Spelling(c, i, [Step(2, false), Step(4, false), Step(7, false)]))
  {
    AddSecondParsed(c, i);
    AddSecondChord(c);
    SpelledAll(c, i, [Step(2, false), Step(4, false), Step(7, false)]);
  }

  lemma AddFourthParsed(c: string, i: int)
    requires RootIndex(c, i)
    ensures Interpret(c + "4") == Success(ChordFields(c, "", ["4"], [], c))
  {
    var sym := Symbol(c, false, ["4"], "", [], None);
    assert WellFormed(sym) by {
      RootNamed(c, i);
      assert AddTokens[1] == "4";
    }
    assert Spell(sym) == c + "4" by {
      assert Join(["4"], '/') == "4";
    }
    assert FieldsOf(sym) == ChordFields(c, "", ["4"], [], c) by {
      GlueNothing(["4"]);
    }
    Parsed(c + "4", sym, ChordFields(c, "", ["4"], [], c));
  }

  lemma AddFourthChord(c: string)
    ensures ChordNotes(c, "", ["4"], [], c) == [c, c] + StepNotes(c, [Step(4, false), Step(5, false), Step(7, false)])
  {
    assert DegreeMap("", ["4"], []) == map[3 := Step(4, false), 4 := Step(5, false), 5 := Step(7, false)] by {
      assert ChordWrites("", ["4"], []) == [W(3, 4), W(5, 7), W(4, 5)];
    }
    PresentThirdFourthFifth(Step(4, false), Step(5, false), Step(7, false));
    DegreeNotesSteps(c, DegreeMap("", ["4"], []), OrderedDegrees);
  }

  /** app/validate-chord-notes.ts, line 57: '4' adds the fourth between the third and the fifth (C4). */
  lemma AddFourth(c: string, i: int)
    requires RootIndex(c, i)
    ensures NotesOfName(c + "4") == Success([c, c] + Spelling(c, i, [Step(4, false), Step(5, false), Step(7, false)]))
  {
    AddFourthParsed(c, i);
    AddFourthChord(c);
    SpelledAll(c, i, [Step(4, false), Step(5, false), Step(7, false)]);
  }

  lemma MajorOverBassParsed(c: string, i: int, b: string)
    requires RootIndex(c, i) && b in NoteNames
    ensures Interpret(c + "\\" + b) == Success(ChordFields(c, "", [], [], b))
  {
    var sym := Symbol(c, false, [], "", [], Some(b));
    assert WellFormed(sym) by {
      RootNamed(c, i);
    }
    assert Spell(sym) == c + "\\" + b;
    Parsed(c + "\\" + b, sym, ChordFields(c, "", [], [], b));
  }

  lemma MajorOverBassChord(c: string, b: string)
    ensures ChordNotes(c, "", [], [], b) == [b, c] + StepNotes(c, [Step(4, false), Step(7, false)])
  {
    assert DegreeMap("", [], []) == map[3 := Step(4, false), 5 := Step(7, false)] by {
      assert ChordWrites("", [], []) == [W(3, 4), W(5, 7)];
    }
    PresentThirdFifth(Step(4, false), Step(7, false));
    DegreeNotesSteps(c, DegreeMap("", [], []), OrderedDegrees);
  }

  /** app/validate-chord-notes.ts, lines 60-61: a slash chord lists its bass first and the chord's own notes after it (C\\G, C\\E). */
  lemma MajorOverBass(c: string, i: int, b: string)
    requires RootIndex(c, i) && b in NoteNames
    ensures NotesOfName(c + "\\" + b) == Success([b, c] + Spelling(c, i, [Step(4, false), Step(7, false)]))
  {
    MajorOverBassParsed(c, i, b);
    MajorOverBassChord(c, b);
    SpelledAll(c, i, [Step(4, false), Step(7, false)]);
  }

  lemma MinorOverBassParsed(c: string, i: int, b: string)
    requires RootIndex(c, i) && b in NoteNames
    ensures Interpret(c + "m" + "\\" + b) == Success(ChordFields(c, "m", [], [], b))
  {
    var sym := Symbol(c, true, [], "", [], Some(b));
    assert WellFormed(sym) by {
      RootNamed(c, i);
    }
    assert Spell(sym) == c + "m" + "\\" + b;
    Parsed(c + "m" + "\\" + b, sym, ChordFields(c, "m", [], [], b));
  }

  lemma MinorOverBassChord(c: string, b: string)
    ensures ChordNotes(c, "m", [], [], b) == [b, c] + StepNotes(c, [Step(3, false), Step(7, false)])
  {
    assert DegreeMap("m", [], []) == map[3 := Step(3, false), 5 := Step(7, false)] by {
      assert ChordWrites("m", [], []) == [W(3, 3), W(5, 7)];
    }
    PresentThirdFifth(Step(3, false), Step(7, false));
    DegreeNotesSteps(c, DegreeMap("m", [], []), OrderedDegrees);
  }

  /** app/validate-chord-notes.ts, line 62: a minor slash chord (Dm\\F). */
  lemma MinorOverBass(c: string, i: int, b: string)
    requires RootIndex(c, i) && b in NoteNames
    ensures NotesOfName(c + "m" + "\\" + b) == Success([b, c] + Spelling(c, i, [Step(3, false), Step(7, false)]))
  {
    MinorOverBassParsed(c, i, b);
    MinorOverBassChord(c, b);
    SpelledAll(c, i, [Step(3, false), Step(7, false)]);
  }

  lemma SeventhOverBassParsed(c: string, i: int, b: string)
    requires RootIndex(c, i) && b in NoteNames
    ensures Interpret(c + "7" + "\\" + b) == Success(ChordFields(c, "", ["7"], [], b))
  {
    var sym := Symbol(c, false, ["7"], "", [], Some(b));
    assert WellFormed(sym) by {
      RootNamed(c, i);
      assert AddTokens[6] == "7";
    }
    assert Spell(sym) == c + "7" + "\\" + b by {
      assert Join(["7"], '/') == "7";
    }
    assert FieldsOf(sym) == ChordFields(c, "", ["7"], [], b) by {
      GlueNothing(["7"]);
    }
    Parsed(c + "7" + "\\" + b, sym, ChordFields(c, "", ["7"], [], b));
  }

  lemma SeventhOverBassChord(c: string, b: string)
    ensures ChordNotes(c, "", ["7"], [], b) == [b, c] + StepNotes(c, [Step(4, false), Step(7, false), Step(10, false)])
  {
    assert DegreeMap("", ["7"], []) == map[3 := Step(4, false), 5 := Step(7, false), 7 := Step(10, false)] by {
      assert ChordWrites("", ["7"], []) == [W(3, 4), W(5, 7), W(7, 10)];
    }
    PresentThirdFifthSeventh(Step(4, false), Step(7, false), Step(10, false));
    DegreeNotesSteps(c, DegreeMap("", ["7"], []), OrderedDegrees);
  }

  /** app/validate-chord-notes.ts, line 63: a seventh over another bass (C7\\Bb). */
  lemma SeventhOverBass(c: string, i: int, b: string)
    requires RootIndex(c, i) && b in NoteNames
    ensures NotesOfName(c + "7" + "\\" + b) == Success([b, c] + Spelling(c, i, [Step(4, false), Step(7, false), Step(10, false)]))
  {
    SeventhOverBassParsed(c, i, b);
    SeventhOverBassChord(c, b);
    SpelledAll(c, i, [Step(4, false), Step(7, false), Step(10, false)]);
  }

  lemma SeventhFlatFifthFlatNinthParsed(c: string, i: int)
    requires RootIndex(c, i)
    ensures Interpret(c + "7(b5/b9)") == Success(ChordFields(c, "", ["7"], ["b5", "b9"], c))
  {
    var sym := Symbol(c, false, ["7"], "", ["b5", "b9"], None);
    assert WellFormed(sym) by {
      RootNamed(c, i);
      assert AddTokens[6] == "7";
      assert ModTokens[3] == "b5";
      assert ModTokens[5] == "b9";
    }
    assert Spell(sym) == c + "7(b5/b9)" by {
      assert Join(["7"], '/') == "7";
      assert Join(["b5", "b9"], '/') == "b5/b9";
    }
    assert FieldsOf(sym) == ChordFields(c, "", ["7"], ["b5", "b9"], c) by {
      GlueNothing(["7"]);
    }
    Parsed(c + "7(b5/b9)", sym, ChordFields(c, "", ["7"], ["b5", "b9"], c));
  }

  lemma SeventhFlatFifthFlatNinthChord(c: string)
    ensures ChordNotes(c, "", ["7"], ["b5", "b9"], c) == [c, c] + StepNotes(c, [Step(4, false), Step(6, false), Step(10, false), Step(13, false)])
  {
    assert DegreeMap("", ["7"], ["b5", "b9"]) == map[3 := Step(4, false), 5 := Step(6, false), 7 := Step(10, false), 9 := Step(13, false)] by {
      assert ["b5", "b9"][..1] == ["b5"];
      assert AllModWrites(["b5", "b9"], true) == [W(5, 6), W(9, 13)];
      assert ChordWrites("", ["7"], ["b5", "b9"]) == [W(3, 4), W(5, 7), W(7, 10), W(5, 6), W(9, 13)];
    }
    PresentThirdFifthSeventhNinth(Step(4, false), Step(6, false), Step(10, false), Step(13, false));
    DegreeNotesSteps(c, DegreeMap("", ["7"], ["b5", "b9"]), OrderedDegrees);
  }

  /** app/validate-chord-notes.ts, line 67: two modifications apply in turn (C7(b5/b9)). */
  lemma SeventhFlatFifthFlatNinth(c: string, i: int)
    requires RootIndex(c, i)
    ensures NotesOfName(c + "7(b5/b9)") == Success([c, c] + Spelling(c, i, [Step(4, false), Step(6, false), Step(10, false), Step(13, false)]))
  {
    SeventhFlatFifthFlatNinthParsed(c, i);
    SeventhFlatFifthFlatNinthChord(c);
    SpelledAll(c, i, [Step(4, false), Step(6, false), Step(10, false), Step(13, false)]);
  }

  lemma SeventhSuspendedFourthChord(c: string)
    ensures ChordNotes(c, "", ["7sus4"], [], c) == [c, c] + StepNotes(c, [Step(4, false), Step(7, false)])
  {
    assert DegreeMap("", ["7sus4"], []) == map[3 := Step(4, false), 5 := Step(7, false)] by {
      assert ChordWrites("", ["7sus4"], []) == [W(3, 4), W(5, 7)];
    }
    PresentThirdFifth(Step(4, false), Step(7, false));
    DegreeNotesSteps(c, DegreeMap("", ["7sus4"], []), OrderedDegrees);
  }

  /**
   * Chord.ts lines 83-102: a quality written after an addition is not
   * split off, so `C7sus4` keeps quality '' and addition "7sus4", which
   * `getNotes` ignores: the chord sounds as a plain major triad.
   */
  lemma SeventhSuspendedFourth(c: string, i: int)
    requires RootIndex(c, i)
    ensures Interpret(c + "7sus4") == Success(ChordFields(c, "", ["7sus4"], [], c))
    ensures NotesOfName(c + "7sus4") == Success([c, c] + Spelling(c, i, [Step(4, false), Step(7, false)]))
  {
    var sym := Symbol(c, false, ["7"], "sus4", [], None);
    RootNamed(c, i);
    assert AddTokens[6] == "7";
    assert PostQualities[3] == "sus4";
    assert Spell(sym) == c + "7sus4" by {
      assert Join(["7"], '/') == "7";
    }
    assert GlueLast(["7"], "sus4") == ["7sus4"] by {
      assert ["7"][..0] == [];
      assert "7" + "sus4" == "7sus4";
    }
    Parsed(c + "7sus4", sym, ChordFields(c, "", ["7sus4"], [], c));
    SeventhSuspendedFourthChord(c);
    SpelledAll(c, i, [Step(4, false), Step(7, false)]);
  }

  /**
   * `getNoteFromInterval` with sharps preferred does not find a flat root
   * in the sharp table and returns the root itself: `Bbaug` has the notes
   * Bb, Bb, D, Bb.
   */
  lemma AugmentedFlatRoot(c: string, i: int)
    requires 0 <= i < 12 && c == NotesDown[i] && c != NotesUp[i]
    ensures NotesOfName(c + "aug") == Success([c, c] + [NotesDown[(i + 4) % 12], c])
  {
    assert Spelling(c, i, [Step(8, true)]) == [c] by {
      FlatNotInUp(i);
    }
    assert Spelling(c, i, [Step(4, false), Step(8, true)]) == [NotesDown[(i + 4) % 12], c] by {
      TableSpelling(i);
      assert [Step(4, false), Step(8, true)][1..] == [Step(8, true)];
    }
    Augmented(c, i);
  }
}
