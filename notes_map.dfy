/**
 * The degree map `getNotes` builds (app/src/lib/chords/Chord.ts, lines
 * 208-323), stated as a list of writes folded into a map: the quality's
 * defaults first, then each addition's writes, then each modification's.
 * A later write to a degree replaces an earlier one.
 */
module DegreeMaps {
  import opened Wrappers
  import opened ChordTheory

  /** One entry of the interval map: semitones above the root and the sharp preference. */
  datatype Step = Step(semitones: nat, preferSharps: bool)

  /** A write of one entry at one scale degree. */
  datatype Write = Write(degree: int, step: Step)

  /** The degrees in the order their notes are emitted. */
  const OrderedDegrees: seq<int> := [2, 3, 4, 5, 6, 7, 9, 11, 13]

  /** Line 213: every type but 'm' and 'dim' counts as major. */
  predicate IsMajor(quality: string)
  {
    quality != "m" && quality != "dim"
  }

  function W(degree: int, semitones: nat): Write
  {
    Write(degree, Step(semitones, false))
  }

  function Sharp(degree: int, semitones: nat): Write
  {
    Write(degree, Step(semitones, true))
  }

  /** Lines 225-243: the default third (or suspension) and the default fifth. */
  function QualityWrites(quality: string): seq<Write>
  {
    var isMajor, isDim := IsMajor(quality), quality == "dim";
    var third :=
      if quality == "sus2" then [W(2, 2)]
      else if quality == "sus4" then [W(4, 5)]
      else if isMajor && !isDim then [W(3, 4)]
      else if quality == "m" || isDim then [W(3, 3)]
      else [];
    var fifth :=
      if quality == "aug" then Sharp(5, 8)
      else if isDim then W(5, 6)
      else W(5, 7);
    third + [fifth]
  }

  /** Lines 246-278: the writes of one addition; '5' and unknown tokens write nothing. */
  function AddWrites(a: string, isMajor: bool): seq<Write>
  {
    if a == "2" then [W(2, 2)]
    else if a == "4" then [W(4, 5)]
    else if a == "5" then []
    else if a == "6" then [W(6, if isMajor then 9 else 8)]
    else if a == "maj6" then [W(6, 9)]
    else if a == "7" then [W(7, 10)]
    else if a == "maj7" then [W(7, 11)]
    else if a == "9" then [W(7, 10), W(9, 14)]
    else if a == "maj9" then [W(7, 11), W(9, 14)]
    else if a == "11" then [W(7, 10), W(9, 14), W(11, 17)]
    else if a == "13" then [W(7, 10), W(9, 14), W(11, 17), W(13, 21)]
    else []
  }

  /** Lines 281-309: the writes of one modification; unknown tokens write nothing. */
  function ModWrites(m: string, isMajor: bool): seq<Write>
  {
    if m == "b3" then [W(3, 3)]
    else if m == "#4" then [Sharp(4, 6)]
    else if m == "b5" then [W(5, 6)]
    else if m == "#5" then [Sharp(5, 8)]
    else if m == "b6" then [W(6, (if isMajor then 9 else 8) - 1)]
    else if m == "maj6" then [W(6, 9)]
    else if m == "maj7" then [W(7, 11)]
    else if m == "b9" then [W(9, 13)]
    else if m == "#9" then [Sharp(9, 15)]
    else if m == "#11" then [W(9, 14), Sharp(11, 18)]
    else if m == "b13" then [W(9, 14), W(11, 17), W(13, 20)]
    else []
  }

  /** The writes of a list of additions, in list order. */
  function AllAddWrites(adds: seq<string>, isMajor: bool): seq<Write>
  {
    if adds == [] then [] else AllAddWrites(adds[..|adds| - 1], isMajor) + AddWrites(adds[|adds| - 1], isMajor)
  }

  /** The writes of a list of modifications, in list order. */
  function AllModWrites(mods: seq<string>, isMajor: bool): seq<Write>
  {
    if mods == [] then [] else AllModWrites(mods[..|mods| - 1], isMajor) + ModWrites(mods[|mods| - 1], isMajor)
  }

  /** `intervals.set(...)` for each write in turn. */
  function Apply(m: map<int, Step>, ws: seq<Write>): map<int, Step>
    decreases |ws|
  {
    if ws == [] then m else Apply(m[ws[0].degree := ws[0].step], ws[1..])
  }

  /** Every write the chord makes, in the order `getNotes` makes them. */
  function ChordWrites(quality: string, adds: seq<string>, mods: seq<string>): seq<Write>
  {
    var isMajor := IsMajor(quality);
    QualityWrites(quality) + AllAddWrites(adds, isMajor) + AllModWrites(mods, isMajor)
  }

  /** The interval map once every write is made. */
  function DegreeMap(quality: string, adds: seq<string>, mods: seq<string>): map<int, Step>
  {
    Apply(map[], ChordWrites(quality, adds, mods))
  }

  /** Lines 315-318: the note of degree `d` when the map holds it. */
  function DegreeNote(key: string, m: map<int, Step>, d: int): seq<string>
  {
    if d in m then [NoteFromInterval(key, m[d].semitones, m[d].preferSharps)] else []
  }

  /** The notes of the present degrees among `ds`, in the order of `ds`. */
  function DegreeNotes(key: string, m: map<int, Step>, ds: seq<int>): seq<string>
  {
    if ds == [] then [] else DegreeNote(key, m, ds[0]) + DegreeNotes(key, m, ds[1..])
  }

  /** The steps of the degrees of `ds` present in `m`, in the order of `ds`. */
  function PresentSteps(m: map<int, Step>, ds: seq<int>): seq<Step>
  {
    if ds == [] then [] else (if ds[0] in m then [m[ds[0]]] else []) + PresentSteps(m, ds[1..])
  }

  /** The step of degree `d`, when `m` holds one. */
  function DegreeStep(m: map<int, Step>, d: int): seq<Step>
  {
    if d in m then [m[d]] else []
  }

  lemma PresentStepsSplit(m: map<int, Step>, ds: seq<int>, i: nat)
    requires i < |ds|
    ensures PresentSteps(m, ds[i..]) == DegreeStep(m, ds[i]) + PresentSteps(m, ds[i + 1..])
  {
    assert ds[i..][1..] == ds[i + 1..];
  }

  /** The present steps of the nine listed degrees, written out. */
  lemma PresentStepsNine(m: map<int, Step>)
    ensures PresentSteps(m, OrderedDegrees)
      == DegreeStep(m, 2) + (DegreeStep(m, 3) + (DegreeStep(m, 4) + (DegreeStep(m, 5) + (DegreeStep(m, 6)
       + (DegreeStep(m, 7) + (DegreeStep(m, 9) + (DegreeStep(m, 11) + DegreeStep(m, 13))))))))
  {
    var ds := OrderedDegrees;
    assert PresentSteps(m, ds[8..]) == DegreeStep(m, 13) by {
      assert ds[8..][1..] == [];
    }
    PresentStepsSplit(m, ds, 7);
    PresentStepsSplit(m, ds, 6);
    PresentStepsSplit(m, ds, 5);
    PresentStepsSplit(m, ds, 4);
    PresentStepsSplit(m, ds, 3);
    PresentStepsSplit(m, ds, 2);
    PresentStepsSplit(m, ds, 1);
    PresentStepsSplit(m, ds, 0);
    assert ds[0..] == ds;
  }

  /** The note `key` and one step spell, for each step in turn. */
  function StepNotes(key: string, steps: seq<Step>): seq<string>
  {
    if steps == [] then [] else [NoteFromInterval(key, steps[0].semitones, steps[0].preferSharps)] + StepNotes(key, steps[1..])
  }

  /** The degree notes are the notes of the present steps, in degree order. */
  lemma {:induction false} DegreeNotesSteps(key: string, m: map<int, Step>, ds: seq<int>)
    ensures DegreeNotes(key, m, ds) == StepNotes(key, PresentSteps(m, ds))
  {
    if ds != [] {
      DegreeNotesSteps(key, m, ds[1..]);
      var rest := PresentSteps(m, ds[1..]);
      if ds[0] in m {
        assert ([m[ds[0]]] + rest)[1..] == rest;
      } else {
        assert [] + rest == rest;
      }
    }
  }

  /** Note `k` of the list is the note of step `k`. */
  lemma {:induction false} StepNotesAt(key: string, steps: seq<Step>)
    ensures |StepNotes(key, steps)| == |steps|
    ensures forall k :: 0 <= k < |steps| ==>
      StepNotes(key, steps)[k] == NoteFromInterval(key, steps[k].semitones, steps[k].preferSharps)
  {
    if steps != [] {
      StepNotesAt(key, steps[1..]);
    }
  }

  /** `getNotes`: the bass, the root, then one note per present degree in ascending degree order. */
  function ChordNotes(key: string, quality: string, adds: seq<string>, mods: seq<string>, bass: string): seq<string>
  {
    [bass, key] + DegreeNotes(key, DegreeMap(quality, adds, mods), OrderedDegrees)
  }

  // ---------------------------------------------------------------- last write wins

  /** The last write to degree `d` in `ws`, if any. */
  function LastWrite(ws: seq<Write>, d: int): Option<Step>
  {
    if ws == [] then None
    else if ws[|ws| - 1].degree == d then Some(ws[|ws| - 1].step)
    else LastWrite(ws[..|ws| - 1], d)
  }

  /** Folding writes into a map: a degree holds its last write, or what the map held before. */
  lemma {:induction false} ApplyLastWrite(m: map<int, Step>, ws: seq<Write>, d: int)
    ensures d in Apply(m, ws) <==> LastWrite(ws, d).Some? || d in m
    ensures d in Apply(m, ws) ==>
      Apply(m, ws)[d] == if LastWrite(ws, d).Some? then LastWrite(ws, d).value else m[d]
    decreases |ws|
  {
    if ws != [] {
      var init, last := ws[..|ws| - 1], ws[|ws| - 1];
      assert ws == init + [last];
      ApplySnoc(m, init, last);
      ApplyLastWrite(m, init, d);
    }
  }

  /** Folding a short list of writes is updating the map with each in turn. */
  lemma ApplyOne(m: map<int, Step>, w1: Write)
    ensures Apply(m, [w1]) == m[w1.degree := w1.step]
  {
    assert [w1][1..] == [];
  }

  lemma ApplyTwo(m: map<int, Step>, w1: Write, w2: Write)
    ensures Apply(m, [w1, w2]) == m[w1.degree := w1.step][w2.degree := w2.step]
  {
    assert [w1, w2][1..] == [w2];
    ApplyOne(m[w1.degree := w1.step], w2);
  }

  lemma ApplyThree(m: map<int, Step>, w1: Write, w2: Write, w3: Write)
    ensures Apply(m, [w1, w2, w3]) == m[w1.degree := w1.step][w2.degree := w2.step][w3.degree := w3.step]
  {
    assert [w1, w2, w3][1..] == [w2, w3];
    ApplyTwo(m[w1.degree := w1.step], w2, w3);
  }

  lemma ApplyFour(m: map<int, Step>, w1: Write, w2: Write, w3: Write, w4: Write)
    ensures Apply(m, [w1, w2, w3, w4])
      == m[w1.degree := w1.step][w2.degree := w2.step][w3.degree := w3.step][w4.degree := w4.step]
  {
    assert [w1, w2, w3, w4][1..] == [w2, w3, w4];
    ApplyThree(m[w1.degree := w1.step], w2, w3, w4);
  }

  /** Folding one more write at the end updates the folded map once more. */
  lemma {:induction false} ApplySnoc(m: map<int, Step>, ws: seq<Write>, w: Write)
    ensures Apply(m, ws + [w]) == Apply(m, ws)[w.degree := w.step]
    decreases |ws|
  {
    if ws == [] {
      assert [] + [w] == [w];
      assert [w][1..] == [];
    } else {
      assert (ws + [w])[1..] == ws[1..] + [w];
      ApplySnoc(m[ws[0].degree := ws[0].step], ws[1..], w);
    }
  }

  /** Folding `a + b` is folding `a`, then `b`. */
  lemma {:induction false} ApplyAppend(m: map<int, Step>, a: seq<Write>, b: seq<Write>)
    ensures Apply(m, a + b) == Apply(Apply(m, a), b)
    decreases |a|
  {
    if a == [] {
      assert a + b == b;
    } else {
      assert (a + b)[1..] == a[1..] + b;
      ApplyAppend(m[a[0].degree := a[0].step], a[1..], b);
    }
  }

  /** The last write in `a + b` comes from `b` when `b` writes the degree at all. */
  lemma {:induction false} LastWriteAppend(a: seq<Write>, b: seq<Write>, d: int)
    ensures LastWrite(a + b, d) == if LastWrite(b, d).Some? then LastWrite(b, d) else LastWrite(a, d)
    decreases |b|
  {
    if b == [] {
      assert a + b == a;
    } else {
      assert (a + b)[..|a + b| - 1] == a + b[..|b| - 1];
      LastWriteAppend(a, b[..|b| - 1], d);
    }
  }

  /**
   * Priority of the writes: a degree holds the last modification's value if
   * any modification writes it, else the last addition's, else the quality's
   * default; it is absent when none of the three writes it.
   */
  lemma Priority(quality: string, adds: seq<string>, mods: seq<string>, d: int)
    ensures var isMajor := IsMajor(quality);
      var q, a, md := LastWrite(QualityWrites(quality), d), LastWrite(AllAddWrites(adds, isMajor), d),
        LastWrite(AllModWrites(mods, isMajor), d);
      var m := DegreeMap(quality, adds, mods);
      && (d in m <==> q.Some? || a.Some? || md.Some?)
      && (d in m ==> m[d] == if md.Some? then md.value else if a.Some? then a.value else q.value)
  {
    var isMajor := IsMajor(quality);
    var qw, aw, mw := QualityWrites(quality), AllAddWrites(adds, isMajor), AllModWrites(mods, isMajor);
    ApplyLastWrite(map[], qw + aw + mw, d);
    LastWriteAppend(qw + aw, mw, d);
    LastWriteAppend(qw, aw, d);
  }

  /** The quality always writes the fifth, so degree 5 is always present. */
  lemma FifthPresent(quality: string, adds: seq<string>, mods: seq<string>)
    ensures 5 in DegreeMap(quality, adds, mods)
  {
    Priority(quality, adds, mods, 5);
    var qw := QualityWrites(quality);
    assert qw[|qw| - 1].degree == 5;
  }

  /** Only the nine listed degrees are ever written. */
  lemma {:induction false} KeysListed(quality: string, adds: seq<string>, mods: seq<string>, d: int)
    requires d in DegreeMap(quality, adds, mods)
    ensures d in OrderedDegrees
  {
    var isMajor := IsMajor(quality);
    Priority(quality, adds, mods, d);
    if LastWrite(AllModWrites(mods, isMajor), d).Some? {
      ModWritesListed(mods, isMajor, d);
    } else if LastWrite(AllAddWrites(adds, isMajor), d).Some? {
      AddWritesListed(adds, isMajor, d);
    } else {
      assert Listed(QualityWrites(quality));
      WritesListed(QualityWrites(quality), d);
    }
  }

  predicate Listed(ws: seq<Write>)
  {
    forall k :: 0 <= k < |ws| ==> ws[k].degree in OrderedDegrees
  }

  lemma {:induction false} WritesListed(ws: seq<Write>, d: int)
    requires Listed(ws) && LastWrite(ws, d).Some?
    ensures d in OrderedDegrees
    decreases |ws|
  {
    if ws[|ws| - 1].degree != d {
      WritesListed(ws[..|ws| - 1], d);
    }
  }

  lemma AddTokenListed(a: string, isMajor: bool)
    ensures Listed(AddWrites(a, isMajor))
  {
  }

  lemma ModTokenListed(m: string, isMajor: bool)
    ensures Listed(ModWrites(m, isMajor))
  {
  }

  lemma {:induction false} AddWritesListed(adds: seq<string>, isMajor: bool, d: int)
    requires LastWrite(AllAddWrites(adds, isMajor), d).Some?
    ensures d in OrderedDegrees
    decreases |adds|
  {
    var init := adds[..|adds| - 1];
    var last := AddWrites(adds[|adds| - 1], isMajor);
    LastWriteAppend(AllAddWrites(init, isMajor), last, d);
    if LastWrite(last, d).Some? {
      AddTokenListed(adds[|adds| - 1], isMajor);
      WritesListed(last, d);
    } else {
      AddWritesListed(init, isMajor, d);
    }
  }

  lemma {:induction false} ModWritesListed(mods: seq<string>, isMajor: bool, d: int)
    requires LastWrite(AllModWrites(mods, isMajor), d).Some?
    ensures d in OrderedDegrees
    decreases |mods|
  {
    var init := mods[..|mods| - 1];
    var last := ModWrites(mods[|mods| - 1], isMajor);
    LastWriteAppend(AllModWrites(init, isMajor), last, d);
    if LastWrite(last, d).Some? {
      ModTokenListed(mods[|mods| - 1], isMajor);
      WritesListed(last, d);
    } else {
      ModWritesListed(init, isMajor, d);
    }
  }

  /** One note per present degree of `ds`. */
  function CountPresent(m: map<int, Step>, ds: seq<int>): nat
  {
    if ds == [] then 0 else |DegreeNote("", m, ds[0])| + CountPresent(m, ds[1..])
  }

  lemma {:induction false} DegreeNotesLength(key: string, m: map<int, Step>, ds: seq<int>)
    ensures |DegreeNotes(key, m, ds)| == CountPresent(m, ds) <= |ds|
  {
    if ds != [] {
      DegreeNotesLength(key, m, ds[1..]);
    }
  }

  lemma {:induction false} CountPresentOne(m: map<int, Step>, ds: seq<int>, d: int)
    requires d in ds && d in m
    ensures CountPresent(m, ds) >= 1
  {
    if ds[0] != d {
      CountPresentOne(m, ds[1..], d);
    }
  }

  /**
   * The note list starts with the bass and the root, followed by one to
   * nine degree notes: three to eleven notes in all.
   */
  lemma NotesShape(key: string, quality: string, adds: seq<string>, mods: seq<string>, bass: string)
    ensures var notes := ChordNotes(key, quality, adds, mods, bass);
      3 <= |notes| <= 11 && notes[0] == bass && notes[1] == key
  {
    var m := DegreeMap(quality, adds, mods);
    FifthPresent(quality, adds, mods);
    DegreeNotesLength(key, m, OrderedDegrees);
    CountPresentOne(m, OrderedDegrees, 5);
  }

  /** The degree notes of `a + b` are those of `a` followed by those of `b`. */
  lemma {:induction false} DegreeNotesAppend(key: string, m: map<int, Step>, a: seq<int>, b: seq<int>)
    ensures DegreeNotes(key, m, a + b) == DegreeNotes(key, m, a) + DegreeNotes(key, m, b)
    decreases |a|
  {
    if a == [] {
      assert a + b == b;
    } else {
      assert (a + b)[1..] == a[1..] + b;
      DegreeNotesAppend(key, m, a[1..], b);
    }
  }
}
