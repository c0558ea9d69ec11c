/**
 * The `Chord` class of app/src/lib/chords/Chord.ts: its public fields, the
 * name it keeps up to date, `fromString`, `transpose` and `getNotes`.
 */
module ChordModel {
  import opened Wrappers
  import opened JsText
  import opened NoteTables
  import opened ChordTheory
  import opened ChordParse
  import opened DegreeMaps
  import opened ChordGrammar

  class Chord {
    var name: string
    var key: string
    var quality: string          // the source's `type`
    var add: seq<string>
    var mod: seq<string>
    var bass: string

    /** The public fields as one value. */
    function Fields(): ChordFields
      reads this
    {
      ChordFields(key, quality, add, mod, bass)
    }

    /** The stored name is the one `updateName` writes for the current fields. */
    ghost predicate Valid()
      reads this
    {
      name == NameOf(Fields())
    }

    /**
     * Lines 26-40: the type, additions and modifications default to empty,
     * a missing or empty bass (`bass || key`) defaults to the key, and the
     * name is written at once.
     */
    constructor (key: string, quality: string := "", add: seq<string> := [], mod: seq<string> := [], bass: Option<string> := None)
      ensures Fields() == ChordFields(key, quality, add, mod, if bass.None? || bass.value == "" then key else bass.value)
      ensures Valid()
    {
      this.key := key;
      this.quality := quality;
      this.add := add;
      this.mod := mod;
      this.bass := if bass.None? || bass.value == "" then key else bass.value;
      this.name := "";
      new;
      UpdateName();
    }

    /** Lines 118-151: the name is rewritten from the fields, which do not change. */
    method UpdateName()
      modifies this`name
      ensures Valid()
    {
      var typeFirst := quality == "" || quality == "m";
      ghost var o1, o2 := Opt(typeFirst, quality), Opt(|add| > 0, Join(add, '/'));
      ghost var o3, o4 := Opt(!typeFirst && quality != "", quality), Opt(|mod| > 0, "(" + Join(mod, '/') + ")");
      ghost var o5 := Opt(bass != key, "\\" + bass);
      var parts := [key];
      var typeAdded := false;
      if typeFirst {
        parts := parts + [quality];
        typeAdded := true;
      }
      assert parts == [key] + o1;
      if |add| > 0 {
        parts := parts + [Join(add, '/')];
      }
      assert parts == [key] + o1 + o2;
      if !typeAdded && quality != "" {
        parts := parts + [quality];
      }
      assert parts == [key] + o1 + o2 + o3;
      if |mod| > 0 {
        parts := parts + ["(" + Join(mod, '/') + ")"];
      }
      assert parts == [key] + o1 + o2 + o3 + o4;
      if bass != key {
        parts := parts + ["\\" + bass];
      }
      assert parts == [key] + o1 + o2 + o3 + o4 + o5;
      NamePartsInOrder(Fields(), parts);
      name := Concat(parts);
    }

    /** Lines 154-156. */
    method RefreshName()
      modifies this`name
      ensures Valid()
    {
      UpdateName();
    }

    /** Lines 189-191: the stored name, which is the rendering of the fields once it is up to date. */
    method ToString() returns (s: string)
      ensures s == name
      ensures Valid() ==> s == NameOf(Fields())
    {
      s := name;
    }

    /**
     * Lines 158-160: a new chord with the same fields; the bass goes through
     * the constructor's `bass || key` again, so an empty bass becomes the key.
     */
    method Copy() returns (c: Chord)
      ensures fresh(c) && c.Valid()
      ensures c.Fields() == Fields().(bass := if bass == "" then key else bass)
    {
      c := new Chord(key, quality, add, mod, Some(bass));
    }

    /**
     * Lines 171-175: key and bass each move `halfsteps` in their own
     * spelling table. The source stores `undefined` when the shifted index
     * is negative; that case is excluded here.
     */
    method Transpose(halfsteps: int)
      requires TransposeKey(key, halfsteps).Some? && TransposeKey(bass, halfsteps).Some?
      modifies this
      ensures key == TransposeKey(old(key), halfsteps).value
      ensures bass == TransposeKey(old(bass), halfsteps).value
      ensures quality == old(quality) && add == old(add) && mod == old(mod)
      ensures Valid()
    {
      key := TransposeKey(key, halfsteps).value;
      bass := TransposeKey(bass, halfsteps).value;
      UpdateName();
    }

    /**
     * Lines 208-323: the interval map is filled by the quality's defaults,
     * then the additions, then the modifications, and the notes are read
     * off it in ascending degree order after the bass and the root.
     */
    method GetNotes() returns (notes: seq<string>)
      ensures notes == ChordNotes(key, quality, add, mod, bass)
    {
      notes := [];
      var isMajor := quality != "m" && quality != "dim";

      notes := notes + [bass];
      notes := notes + [key];

      var intervals := SetDefaults(quality);
      intervals := AddAll(intervals, add, isMajor);
      intervals := ModifyAll(intervals, mod, isMajor);
      ApplyAppend(map[], QualityWrites(quality), AllAddWrites(add, isMajor));
      ApplyAppend(map[], QualityWrites(quality) + AllAddWrites(add, isMajor), AllModWrites(mod, isMajor));
      assert intervals == DegreeMap(quality, add, mod);

      var degreeNotes := EmitDegrees(key, intervals);
      notes := notes + degreeNotes;
    }

    /**
     * Lines 43-106: a name the chord grammar rejects raises an error naming
     * it; any other name gives a new chord with the fields it spells.
     */
    static method FromString(name: string) returns (r: Result<Chord>)
      ensures r.Failure? <==> Interpret(name).Failure?
      ensures r.Failure? ==> r.error == Interpret(name).error
      ensures r.Success? ==> fresh(r.value) && r.value.Valid() && r.value.Fields() == Interpret(name).value
    {
      var fields := ParseFields(name);
      if fields.Failure? {
        return Failure(fields.error);
      }
      var f := fields.value;
      InterpretBassNonEmpty(name);
      var c := new Chord(f.key, f.quality, f.add, f.mod, Some(f.bass));
      r := Success(c);
    }
  }

  /** The pieces appended one after the other are the pieces `NameParts` nests. */
  lemma NamePartsInOrder(f: ChordFields, parts: seq<string>)
    requires var typeFirst := f.quality == "" || f.quality == "m";
      parts == [f.key] + Opt(typeFirst, f.quality) + Opt(|f.add| > 0, Join(f.add, '/'))
        + Opt(!typeFirst && f.quality != "", f.quality) + Opt(|f.mod| > 0, "(" + Join(f.mod, '/') + ")")
        + Opt(f.bass != f.key, "\\" + f.bass)
    ensures parts == NameParts(f)
  {
  }

  /** Lines 225-243: the default third (or suspension) and fifth of the quality. */
  method SetDefaults(quality: string) returns (intervals: map<int, Step>)
    ensures intervals == Apply(map[], QualityWrites(quality))
  {
    intervals := map[];
    var isMajor := quality != "m" && quality != "dim";
    var isDim := quality == "dim";
    var isAug := quality == "aug";
    var isSus2 := quality == "sus2";
    var isSus4 := quality == "sus4";
    if isSus2 {
      intervals := intervals[2 := Step(2, false)];
    } else if isSus4 {
      intervals := intervals[4 := Step(5, false)];
    } else if isMajor && !isDim {
      intervals := intervals[3 := Step(4, false)];
    } else if quality == "m" || isDim {
      intervals := intervals[3 := Step(3, false)];
    }
    if isAug {
      intervals := intervals[5 := Step(8, true)];
    } else if isDim {
      intervals := intervals[5 := Step(6, false)];
    } else {
      intervals := intervals[5 := Step(7, false)];
    }
    QualityDefaults(quality);
  }

  /** Lines 311-320: one note per degree present in the map, in ascending degree order. */
  method EmitDegrees(key: string, intervals: map<int, Step>) returns (notes: seq<string>)
    ensures notes == DegreeNotes(key, intervals, OrderedDegrees)
  {
    notes := [];
    var k := 0;
    while k < |OrderedDegrees|
      invariant 0 <= k <= |OrderedDegrees|
      invariant notes == DegreeNotes(key, intervals, OrderedDegrees[..k])
    {
      var interval := OrderedDegrees[k];
      DegreeNotesAppend(key, intervals, OrderedDegrees[..k], [interval]);
      assert OrderedDegrees[..k + 1] == OrderedDegrees[..k] + [interval];
      if interval in intervals {
        var step := intervals[interval];
        var note := NoteFromInterval(key, step.semitones, step.preferSharps);
        notes := notes + [note];
      }
      k := k + 1;
    }
    assert OrderedDegrees[..k] == OrderedDegrees;
  }

  /** Lines 246-278: each addition's writes, in list order. */
  method AddAll(intervals: map<int, Step>, adds: seq<string>, isMajor: bool) returns (m: map<int, Step>)
    ensures m == Apply(intervals, AllAddWrites(adds, isMajor))
  {
    m := intervals;
    var i := 0;
    assert adds[..0] == [];
    while i < |adds|
      invariant 0 <= i <= |adds|
      invariant m == Apply(intervals, AllAddWrites(adds[..i], isMajor))
    {
      m := Addition(m, adds[i], isMajor);
      assert adds[..i + 1][..i] == adds[..i];
      ApplyAppend(intervals, AllAddWrites(adds[..i], isMajor), AddWrites(adds[i], isMajor));
      i := i + 1;
    }
    assert adds[..|adds|] == adds;
  }

  /** Lines 281-309: each modification's writes, in list order. */
  method ModifyAll(intervals: map<int, Step>, mods: seq<string>, isMajor: bool) returns (m: map<int, Step>)
    ensures m == Apply(intervals, AllModWrites(mods, isMajor))
  {
    m := intervals;
    var j := 0;
    assert mods[..0] == [];
    while j < |mods|
      invariant 0 <= j <= |mods|
      invariant m == Apply(intervals, AllModWrites(mods[..j], isMajor))
    {
      m := Modification(m, mods[j], isMajor);
      assert mods[..j + 1][..j] == mods[..j];
      ApplyAppend(intervals, AllModWrites(mods[..j], isMajor), ModWrites(mods[j], isMajor));
      j := j + 1;
    }
    assert mods[..|mods|] == mods;
  }

  /** Lines 246-278, one addition: the map after its writes. */
  method Addition(intervals: map<int, Step>, a: string, isMajor: bool) returns (m: map<int, Step>)
    ensures m == Apply(intervals, AddWrites(a, isMajor))
  {
    m := intervals;
    if a == "2" {
      ApplyOne(m, W(2, 2));
      m := m[2 := Step(2, false)];
    } else if a == "4" {
      ApplyOne(m, W(4, 5));
      m := m[4 := Step(5, false)];
    } else if a == "5" {
    } else if a == "6" {
      ApplyOne(m, W(6, if isMajor then 9 else 8));
      m := m[6 := Step(if isMajor then 9 else 8, false)];
    } else if a == "maj6" {
      ApplyOne(m, W(6, 9));
      m := m[6 := Step(9, false)];
    } else if a == "7" {
      ApplyOne(m, W(7, 10));
      m := m[7 := Step(10, false)];
    } else if a == "maj7" {
      ApplyOne(m, W(7, 11));
      m := m[7 := Step(11, false)];
    } else if a == "9" {
      ApplyTwo(m, W(7, 10), W(9, 14));
      m := m[7 := Step(10, false)];
      m := m[9 := Step(14, false)];
    } else if a == "maj9" {
      ApplyTwo(m, W(7, 11), W(9, 14));
      m := m[7 := Step(11, false)];
      m := m[9 := Step(14, false)];
    } else if a == "11" {
      ApplyThree(m, W(7, 10), W(9, 14), W(11, 17));
      m := m[7 := Step(10, false)];
      m := m[9 := Step(14, false)];
      m := m[11 := Step(17, false)];
    } else if a == "13" {
      ApplyFour(m, W(7, 10), W(9, 14), W(11, 17), W(13, 21));
      m := m[7 := Step(10, false)];
      m := m[9 := Step(14, false)];
      m := m[11 := Step(17, false)];
      m := m[13 := Step(21, false)];
    }
  }

  /** Lines 281-309, one modification: the map after its writes. */
  method Modification(intervals: map<int, Step>, md: string, isMajor: bool) returns (m: map<int, Step>)
    ensures m == Apply(intervals, ModWrites(md, isMajor))
  {
    m := intervals;
    if md == "b3" {
      ApplyOne(m, W(3, 3));
      m := m[3 := Step(3, false)];
    } else if md == "#4" {
      ApplyOne(m, Sharp(4, 6));
      m := m[4 := Step(6, true)];
    } else if md == "b5" {
      ApplyOne(m, W(5, 6));
      m := m[5 := Step(6, false)];
    } else if md == "#5" {
      ApplyOne(m, Sharp(5, 8));
      m := m[5 := Step(8, true)];
    } else if md == "b6" {
      ApplyOne(m, W(6, (if isMajor then 9 else 8) - 1));
      var baseSemitones := if isMajor then 9 else 8;
      m := m[6 := Step(baseSemitones - 1, false)];
    } else if md == "maj6" {
      ApplyOne(m, W(6, 9));
      m := m[6 := Step(9, false)];
    } else if md == "maj7" {
      ApplyOne(m, W(7, 11));
      m := m[7 := Step(11, false)];
    } else if md == "b9" {
      ApplyOne(m, W(9, 13));
      m := m[9 := Step(13, false)];
    } else if md == "#9" {
      ApplyOne(m, Sharp(9, 15));
      m := m[9 := Step(15, true)];
    } else if md == "#11" {
      ApplyTwo(m, W(9, 14), Sharp(11, 18));
      m := m[9 := Step(14, false)];
      m := m[11 := Step(18, true)];
    } else if md == "b13" {
      ApplyThree(m, W(9, 14), W(11, 17), W(13, 20));
      m := m[9 := Step(14, false)];
      m := m[11 := Step(17, false)];
      m := m[13 := Step(20, false)];
    }
  }

  /** A name `fromString` accepts yields a non-empty bass, so the constructor keeps it. */
  lemma InterpretBassNonEmpty(name: string)
    ensures Interpret(name).Success? ==> Interpret(name).value.bass != ""
  {
    if Interpret(name).Success? {
      var sym := Recognize(name).value;
      NoteStart(sym.key);
      if sym.bass.Some? {
        NoteStart(sym.bass.value);
      }
    }
  }

  /** Lines 225-243 write the defaults the quality's write list holds. */
  lemma QualityDefaults(quality: string)
    ensures var isMajor, isDim := IsMajor(quality), quality == "dim";
      var third: map<int, Step> :=
        if quality == "sus2" then map[2 := Step(2, false)]
        else if quality == "sus4" then map[4 := Step(5, false)]
        else if isMajor && !isDim then map[3 := Step(4, false)]
        else map[3 := Step(3, false)];
      Apply(map[], QualityWrites(quality))
        == third[5 := if quality == "aug" then Step(8, true) else if isDim then Step(6, false) else Step(7, false)]
  {
    var qw := QualityWrites(quality);
    ApplyTwo(map[], qw[0], qw[1]);
    assert qw == [qw[0], qw[1]];
  }
}
