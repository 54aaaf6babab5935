/**
 * The key layout of the on-screen piano
 * (src/components/practice/virtual-keyboard.tsx): twelve keys per octave in
 * chromatic order, the white/black split and the selection test. Rendering
 * is not modelled.
 */
module VirtualKeyboard {
  import opened Wrappers
  import opened MusicTypes
  import opened Decimal
  import opened MusicUtils

  datatype PatternEntry = PatternEntry(name: string, isBlack: bool)

  /** One octave, C to B, with sharps for the black keys. */
  const NotePattern: seq<PatternEntry> := [
    PatternEntry("C", false), PatternEntry("C#", true), PatternEntry("D", false),
    PatternEntry("D#", true), PatternEntry("E", false), PatternEntry("F", false),
    PatternEntry("F#", true), PatternEntry("G", false), PatternEntry("G#", true),
    PatternEntry("A", false), PatternEntry("A#", true), PatternEntry("B", false)
  ]

  datatype PianoKey = PianoKey(note: Note, isBlack: bool, labelText: string)

  /** The note name as the letter's text; the key's cast to a NoteName. */
  function ParseNoteName(text: string): Option<NoteName> {
    if |text| == 1 then ParseLetter(text[0]) else None
  }

  /** A pattern name such as "C#" split into letter and accidental. */
  function SplitPatternName(name: string): Option<(NoteName, Accidental)> {
    var (letterText, acc) := if '#' in name then ([name[0]], Sharp) else (name, Natural);
    match ParseNoteName(letterText)
    case None => None
    case Some(letter) => Some((letter, acc))
  }

  /**
   * Every pattern name splits, into the sharp-table spelling of its position;
   * the black entries are exactly the sharps.
   */
  lemma PatternSplits(i: nat)
    requires i < |NotePattern|
    ensures SplitPatternName(NotePattern[i].name).Some?
    ensures var (letter, acc) := SplitPatternName(NotePattern[i].name).value;
      Spelling(letter, acc) == SharpTable(i) && (NotePattern[i].isBlack <==> acc == Sharp)
  {
  }

  /** The key at pattern position i of an octave. */
  function PatternKey(octave: int, i: nat): PianoKey
    requires i < |NotePattern|
  {
    PatternSplits(i);
    var entry := NotePattern[i];
    var (letter, acc) := SplitPatternName(entry.name).value;
    PianoKey(Note(letter, acc, octave), entry.isBlack, entry.name + IntToDecimal(octave))
  }

  function OctaveKeys(octave: int): seq<PianoKey> {
    seq(|NotePattern|, i requires 0 <= i < |NotePattern| => PatternKey(octave, i))
  }

  /**
   * The layout from startOctave to endOctave inclusive, lowest octave first:
   * twelve keys for every octave of the range, none for an empty range.
   */
  function Keyboard(startOctave: int, endOctave: int): (keys: seq<PianoKey>)
    ensures |keys| == if startOctave <= endOctave then 12 * (endOctave - startOctave + 1) else 0
    decreases endOctave - startOctave
  {
    if endOctave < startOctave then [] else Keyboard(startOctave, endOctave - 1) + OctaveKeys(endOctave)
  }

  /** generateKeys: for each octave, for each pattern entry, push the key. */
  method GenerateKeys(startOctave: int, endOctave: int) returns (keys: seq<PianoKey>)
    ensures keys == Keyboard(startOctave, endOctave)
  {
    keys := [];
    var octave := startOctave;
    while octave <= endOctave
      invariant startOctave <= octave && (octave <= endOctave + 1 || octave == startOctave)
      invariant keys == Keyboard(startOctave, octave - 1)
    {
      ghost var before := keys;
      ghost var row := OctaveKeys(octave);
      var j := 0;
      while j < |NotePattern|
        invariant 0 <= j <= |NotePattern|
        invariant keys == before + row[..j]
      {
        var entry := NotePattern[j];
        PatternSplits(j);
        var (noteName, accidental) := SplitPatternName(entry.name).value;
        keys := keys + [PianoKey(Note(noteName, accidental, octave), entry.isBlack, entry.name + IntToDecimal(octave))];
        assert row[j] == PatternKey(octave, j);
        assert row[..j + 1] == row[..j] + [row[j]];
        j := j + 1;
      }
      assert row[..|NotePattern|] == row;
      octave := octave + 1;
    }
  }

  /** Key k lies in octave startOctave + k / 12 at pattern position k % 12. */
  lemma {:induction false} KeyboardAt(startOctave: int, endOctave: int, k: nat)
    requires k < |Keyboard(startOctave, endOctave)|
    ensures Keyboard(startOctave, endOctave)[k] == PatternKey(startOctave + k / 12, k % 12)
    decreases endOctave - startOctave
  {
    var n := 12 * (endOctave - startOctave);
    if k >= n {
      assert Keyboard(startOctave, endOctave)[k] == OctaveKeys(endOctave)[k - n];
      assert k / 12 == endOctave - startOctave && k % 12 == k - n;
    } else {
      KeyboardAt(startOctave, endOctave - 1, k);
    }
  }

  /**
   * Key k is the sharp-table spelling of MIDI number (startOctave + 1) * 12 + k,
   * it is black exactly when it is sharp, and its label is the pattern name
   * followed by the octave.
   */
  lemma KeyboardKey(startOctave: int, endOctave: int, k: nat)
    requires k < |Keyboard(startOctave, endOctave)|
    ensures var key := Keyboard(startOctave, endOctave)[k];
      && NoteToMidi(key.note) == (startOctave + 1) * 12 + k
      && key.note == SharpDecode((startOctave + 1) * 12 + k)
      && startOctave <= key.note.octave <= endOctave
      && (key.isBlack <==> key.note.accidental == Sharp)
      && key.labelText == NotePattern[k % 12].name + IntToDecimal(key.note.octave)
  {
    KeyboardAt(startOctave, endOctave, k);
    PatternSplits(k % 12);
    KeyNote(startOctave, endOctave, k);
  }

  /** The note of key k is the sharp-table spelling of its MIDI number. */
  lemma KeyNote(startOctave: int, endOctave: int, k: nat)
    requires k < |Keyboard(startOctave, endOctave)|
    ensures Keyboard(startOctave, endOctave)[k].note == SharpDecode((startOctave + 1) * 12 + k)
  {
    var octave, i, m := startOctave + k / 12, k % 12, (startOctave + 1) * 12 + k;
    KeyboardAt(startOctave, endOctave, k);
    PatternKeyNote(octave, i);
    ShiftOctaves(startOctave + 1, k);
    assert m == (octave + 1) * 12 + i && m % 12 == i;
  }

  /** The note at pattern position i is the sharp-table spelling of pitch class i. */
  lemma PatternKeyNote(octave: int, i: nat)
    requires i < |NotePattern|
    ensures PatternKey(octave, i).note == Spell((octave + 1) * 12 + i, SharpTable(i))
  {
    PatternSplits(i);
  }

  /** Moving k semitones up from the C of octave index a: the pitch class is k's, the octave moves by k div 12. */
  lemma ShiftOctaves(a: int, k: nat)
    ensures (a * 12 + k) % 12 == k % 12 && (a * 12 + k) / 12 == a + k / 12
  {
    assert a * 12 + k == (a + k / 12) * 12 + k % 12;
  }

  /** MIDI numbers rise by exactly one from each key to the next. */
  lemma KeyboardAscends(startOctave: int, endOctave: int, i: nat, j: nat)
    requires i < j < |Keyboard(startOctave, endOctave)|
    ensures NoteToMidi(Keyboard(startOctave, endOctave)[j].note) - NoteToMidi(Keyboard(startOctave, endOctave)[i].note) == j - i
  {
    KeyboardKey(startOctave, endOctave, i);
    KeyboardKey(startOctave, endOctave, j);
  }

  // ---------------------------------------------------------------------------
  // White and black keys

  /** The white keys, in keyboard order: no black key survives, and none is added. */
  function WhiteKeys(keys: seq<PianoKey>): (r: seq<PianoKey>)
    ensures |r| <= |keys|
    ensures forall k :: 0 <= k < |r| ==> !r[k].isBlack
    decreases |keys|
  {
    if |keys| == 0 then [] else (if keys[0].isBlack then [] else [keys[0]]) + WhiteKeys(keys[1..])
  }

  /** The black keys, in keyboard order: no white key survives, and none is added. */
  function BlackKeys(keys: seq<PianoKey>): (r: seq<PianoKey>)
    ensures |r| <= |keys|
    ensures forall k :: 0 <= k < |r| ==> r[k].isBlack
    decreases |keys|
  {
    if |keys| == 0 then [] else (if keys[0].isBlack then [keys[0]] else []) + BlackKeys(keys[1..])
  }

  /** The white keys are exactly the keys that are not black, the black keys exactly the black ones. */
  lemma {:induction false} FilterMembers(keys: seq<PianoKey>, x: PianoKey)
    ensures x in WhiteKeys(keys) <==> x in keys && !x.isBlack
    ensures x in BlackKeys(keys) <==> x in keys && x.isBlack
    decreases |keys|
  {
    if |keys| > 0 {
      FilterMembers(keys[1..], x);
      assert keys == [keys[0]] + keys[1..];
    }
  }

  /** Keys in ascending MIDI order. */
  predicate Ascending(keys: seq<PianoKey>) {
    forall i, j :: 0 <= i < j < |keys| ==> NoteToMidi(keys[i].note) < NoteToMidi(keys[j].note)
  }

  /** Filtering keeps the ascending order. */
  lemma FiltersKeepOrder(keys: seq<PianoKey>)
    requires Ascending(keys)
    ensures Ascending(WhiteKeys(keys)) && Ascending(BlackKeys(keys))
  {
    WhiteKeepsOrder(keys);
    BlackKeepsOrder(keys);
  }

  lemma {:induction false} WhiteKeepsOrder(keys: seq<PianoKey>)
    requires Ascending(keys)
    ensures Ascending(WhiteKeys(keys))
    decreases |keys|
  {
    if |keys| > 0 {
      var tail := keys[1..];
      assert Ascending(tail);
      WhiteKeepsOrder(tail);
      forall x | x in WhiteKeys(tail)
        ensures NoteToMidi(keys[0].note) < NoteToMidi(x.note)
      {
        FilterMembers(tail, x);
        var k :| 0 <= k < |tail| && tail[k] == x;
        assert keys[k + 1] == x;
      }
    }
  }

  lemma {:induction false} BlackKeepsOrder(keys: seq<PianoKey>)
    requires Ascending(keys)
    ensures Ascending(BlackKeys(keys))
    decreases |keys|
  {
    if |keys| > 0 {
      var tail := keys[1..];
      assert Ascending(tail);
      BlackKeepsOrder(tail);
      forall x | x in BlackKeys(tail)
        ensures NoteToMidi(keys[0].note) < NoteToMidi(x.note)
      {
        FilterMembers(tail, x);
        var k :| 0 <= k < |tail| && tail[k] == x;
        assert keys[k + 1] == x;
      }
    }
  }

  lemma KeyboardInOrder(startOctave: int, endOctave: int)
    ensures Ascending(Keyboard(startOctave, endOctave))
    ensures Ascending(WhiteKeys(Keyboard(startOctave, endOctave)))
    ensures Ascending(BlackKeys(Keyboard(startOctave, endOctave)))
  {
    forall i, j | 0 <= i < j < |Keyboard(startOctave, endOctave)|
      ensures NoteToMidi(Keyboard(startOctave, endOctave)[i].note) < NoteToMidi(Keyboard(startOctave, endOctave)[j].note)
    {
      KeyboardAscends(startOctave, endOctave, i, j);
    }
    FiltersKeepOrder(Keyboard(startOctave, endOctave));
  }

  /** Filtering a concatenation filters each part. */
  lemma FiltersDistribute(a: seq<PianoKey>, b: seq<PianoKey>)
    ensures WhiteKeys(a + b) == WhiteKeys(a) + WhiteKeys(b)
    ensures BlackKeys(a + b) == BlackKeys(a) + BlackKeys(b)
  {
    WhiteDistributes(a, b);
    BlackDistributes(a, b);
  }

  lemma {:induction false} WhiteDistributes(a: seq<PianoKey>, b: seq<PianoKey>)
    ensures WhiteKeys(a + b) == WhiteKeys(a) + WhiteKeys(b)
    decreases |a|
  {
    if |a| > 0 {
      WhiteDistributes(a[1..], b);
      assert (a + b)[1..] == a[1..] + b && (a + b)[0] == a[0];
    } else {
      assert a + b == b;
    }
  }

  lemma {:induction false} BlackDistributes(a: seq<PianoKey>, b: seq<PianoKey>)
    ensures BlackKeys(a + b) == BlackKeys(a) + BlackKeys(b)
    decreases |a|
  {
    if |a| > 0 {
      BlackDistributes(a[1..], b);
      assert (a + b)[1..] == a[1..] + b && (a + b)[0] == a[0];
    } else {
      assert a + b == b;
    }
  }

  /** How many entries of a pattern suffix are white and black. */
  function WhiteCount(p: seq<PatternEntry>): nat {
    if |p| == 0 then 0 else (if p[0].isBlack then 0 else 1) + WhiteCount(p[1..])
  }

  function BlackCount(p: seq<PatternEntry>): nat {
    if |p| == 0 then 0 else (if p[0].isBlack then 1 else 0) + BlackCount(p[1..])
  }

  /** Keys coloured entry by entry like a pattern split the same way as the pattern. */
  lemma {:induction false} FilterCounts(keys: seq<PianoKey>, p: seq<PatternEntry>)
    requires |keys| == |p|
    requires forall i :: 0 <= i < |p| ==> keys[i].isBlack == p[i].isBlack
    ensures |WhiteKeys(keys)| == WhiteCount(p) && |BlackKeys(keys)| == BlackCount(p)
    decreases |p|
  {
    if |p| > 0 {
      assert forall i :: 0 <= i < |p| - 1 ==> keys[1..][i] == keys[i + 1] && p[1..][i] == p[i + 1];
      FilterCounts(keys[1..], p[1..]);
    }
  }

  /** Every octave has seven white and five black keys. */
  lemma {:induction false} KeyboardColours(startOctave: int, endOctave: int)
    ensures var n := if startOctave <= endOctave then endOctave - startOctave + 1 else 0;
      |WhiteKeys(Keyboard(startOctave, endOctave))| == 7 * n
      && |BlackKeys(Keyboard(startOctave, endOctave))| == 5 * n
    decreases endOctave - startOctave
  {
    if startOctave <= endOctave {
      KeyboardColours(startOctave, endOctave - 1);
      FiltersDistribute(Keyboard(startOctave, endOctave - 1), OctaveKeys(endOctave));
      OctaveColours(endOctave);
    }
  }

  lemma OctaveColours(octave: int)
    ensures |WhiteKeys(OctaveKeys(octave))| == 7 && |BlackKeys(OctaveKeys(octave))| == 5
  {
    var keys := OctaveKeys(octave);
    forall i | 0 <= i < |NotePattern|
      ensures keys[i].isBlack == NotePattern[i].isBlack
    {
      assert keys[i] == PatternKey(octave, i);
    }
    FilterCounts(keys, NotePattern);
    PatternColours();
  }

  lemma PatternColours()
    ensures WhiteCount(NotePattern) == 7 && BlackCount(NotePattern) == 5
  {
  }

  // ---------------------------------------------------------------------------
  // Selection

  /**
   * isSelected: the key's note is the selected note letter for letter,
   * accidental and octave, so exactly when the selection is that very note.
   */
  predicate IsSelected(key: PianoKey, selectedNote: Option<Note>)
    ensures IsSelected(key, selectedNote) <==> selectedNote == Some(key.note)
  {
    match selectedNote
    case None => false
    case Some(n) =>
      key.note.name == n.name && key.note.accidental == n.accidental && key.note.octave == n.octave
  }

  /**
   * A selected note lights a key exactly when it is spelled as the keyboard
   * spells it (the sharp table) and lies in the displayed octaves; then it
   * lights exactly one key, the one at its MIDI offset.
   */
  lemma SelectionFindsKey(startOctave: int, endOctave: int, n: Note)
    ensures (exists k :: 0 <= k < |Keyboard(startOctave, endOctave)| && IsSelected(Keyboard(startOctave, endOctave)[k], Some(n)))
      <==> n == SharpDecode(NoteToMidi(n)) && startOctave <= n.octave <= endOctave
    ensures forall k :: 0 <= k < |Keyboard(startOctave, endOctave)| && IsSelected(Keyboard(startOctave, endOctave)[k], Some(n)) ==>
      k == NoteToMidi(n) - (startOctave + 1) * 12
  {
    forall k | 0 <= k < |Keyboard(startOctave, endOctave)| && IsSelected(Keyboard(startOctave, endOctave)[k], Some(n))
      ensures n == SharpDecode(NoteToMidi(n)) && startOctave <= n.octave <= endOctave
      ensures k == NoteToMidi(n) - (startOctave + 1) * 12
    {
      KeyboardKey(startOctave, endOctave, k);
    }
    if n == SharpDecode(NoteToMidi(n)) && startOctave <= n.octave <= endOctave {
      SpelledNoteHasKey(startOctave, endOctave, n);
    }
  }

  /** A note spelled by the sharp table, in the displayed octaves, lights the key at its MIDI offset. */
  lemma SpelledNoteHasKey(startOctave: int, endOctave: int, n: Note)
    requires n == SharpDecode(NoteToMidi(n)) && startOctave <= n.octave <= endOctave
    ensures var k := NoteToMidi(n) - (startOctave + 1) * 12;
      0 <= k < |Keyboard(startOctave, endOctave)| && IsSelected(Keyboard(startOctave, endOctave)[k], Some(n))
  {
    var k := NoteToMidi(n) - (startOctave + 1) * 12;
    OffsetInRange(startOctave, endOctave, NoteToMidi(n));
    KeyNote(startOctave, endOctave, k);
  }

  /** A MIDI number whose octave lies in the range sits at an offset inside the keyboard. */
  lemma OffsetInRange(startOctave: int, endOctave: int, m: int)
    requires startOctave <= m / 12 - 1 <= endOctave
    ensures 0 <= m - (startOctave + 1) * 12 < |Keyboard(startOctave, endOctave)|
  {
  }

  /** Db4 lights no key, although notesEqual treats it as C#4: no key of the keyboard is flat. */
  lemma FlatSelectsNothing(startOctave: int, endOctave: int)
    ensures forall k :: 0 <= k < |Keyboard(startOctave, endOctave)| ==> !IsSelected(Keyboard(startOctave, endOctave)[k], Some(Note(D, Flat, 4)))
    ensures NotesEqual(Note(D, Flat, 4), Note(C, Sharp, 4))
  {
    forall k | 0 <= k < |Keyboard(startOctave, endOctave)|
      ensures !IsSelected(Keyboard(startOctave, endOctave)[k], Some(Note(D, Flat, 4)))
    {
      KeyboardKey(startOctave, endOctave, k);
    }
    assert NoteToMidi(Note(D, Flat, 4)) == 61 == NoteToMidi(Note(C, Sharp, 4));
  }
}
