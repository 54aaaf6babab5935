/**
 * The note engine (src/lib/music-utils.ts): MIDI encoding of notes, equality
 * up to enharmonic spelling, display and VexFlow key text, random note
 * sampling and multiple-choice option generation. Every random number the
 * engine draws is an explicit input here.
 */
module MusicUtils {
  import opened Wrappers
  import opened MusicTypes
  import opened Decimal

  // ---------------------------------------------------------------------------
  // Pitch encoding

  /** Semitones of a natural letter above C. */
  function LetterBase(name: NoteName): int {
    match name
    case C => 0
    case D => 2
    case E => 4
    case F => 5
    case G => 7
    case A => 9
    case B => 11
  }

  function AccidentalOffset(acc: Accidental): int {
    match acc
    case Natural => 0
    case Sharp => 1
    case Flat => -1
  }

  /** The MIDI number of a note: C4 is 60, A4 is 69. */
  function NoteToMidi(n: Note): (m: int)
    ensures IsOctave(n.octave) ==> 35 <= m <= 96
    ensures n.octave * 12 + 11 <= m <= n.octave * 12 + 24
  {
    (n.octave + 1) * 12 + LetterBase(n.name) + AccidentalOffset(n.accidental)
  }

  /**
   * How the encoding lays notes out: an octave is 12 semitones, a sharp is one
   * above and a flat one below the natural, and the naturals of an octave
   * ascend from C to B and stay below the next octave's C.
   */
  lemma MidiLayout(name: NoteName, o: int)
    ensures NoteToMidi(Note(name, Natural, o + 1)) == NoteToMidi(Note(name, Natural, o)) + 12
    ensures NoteToMidi(Note(name, Sharp, o)) == NoteToMidi(Note(name, Natural, o)) + 1
    ensures NoteToMidi(Note(name, Flat, o)) == NoteToMidi(Note(name, Natural, o)) - 1
    ensures NoteToMidi(Note(C, Natural, o)) < NoteToMidi(Note(D, Natural, o)) < NoteToMidi(Note(E, Natural, o))
          < NoteToMidi(Note(F, Natural, o)) < NoteToMidi(Note(G, Natural, o)) < NoteToMidi(Note(A, Natural, o))
          < NoteToMidi(Note(B, Natural, o)) < NoteToMidi(Note(C, Natural, o + 1))
  {
  }

  // ---------------------------------------------------------------------------
  // Equality up to enharmonic spelling

  /**
   * notesEqual: two notes are equal when they sound the same, which is
   * exactly when the sharp table spells their pitches alike.
   */
  predicate NotesEqual(a: Note, b: Note)
    ensures NotesEqual(a, b) <==> SharpDecode(NoteToMidi(a)) == SharpDecode(NoteToMidi(b))
  {
    NoteToMidi(a) == NoteToMidi(b)
  }

  /** notesEqual is an equivalence relation. */
  lemma NotesEqualIsEquivalence(a: Note, b: Note, c: Note)
    ensures NotesEqual(a, a)
    ensures NotesEqual(a, b) ==> NotesEqual(b, a)
    ensures NotesEqual(a, b) && NotesEqual(b, c) ==> NotesEqual(a, c)
  {
  }

  /** D#4 and Eb4 are the same pitch; C#4 and Db4 are too, although spelled apart. */
  lemma EnharmonicExamples()
    ensures NotesEqual(Note(D, Sharp, 4), Note(E, Flat, 4))
    ensures NotesEqual(Note(C, Sharp, 4), Note(D, Flat, 4)) && Note(C, Sharp, 4) != Note(D, Flat, 4)
    ensures NotesEqual(Note(B, Sharp, 3), Note(C, Natural, 4))
    ensures !NotesEqual(Note(C, Natural, 4), Note(C, Natural, 5))
  {
    assert NoteToMidi(Note(D, Sharp, 4)) == 63 == NoteToMidi(Note(E, Flat, 4));
    assert NoteToMidi(Note(C, Sharp, 4)) == 61 == NoteToMidi(Note(D, Flat, 4));
    assert NoteToMidi(Note(B, Sharp, 3)) == 60 == NoteToMidi(Note(C, Natural, 4));
    assert NoteToMidi(Note(C, Natural, 5)) == 72;
  }

  // ---------------------------------------------------------------------------
  // Spelling tables: pitch class (MIDI number mod 12) to letter and accidental

  type PitchClass = i: int | 0 <= i < 12

  /** The pitch classes of the five black keys. */
  predicate IsBlackKey(pc: int) {
    pc == 1 || pc == 3 || pc == 6 || pc == 8 || pc == 10
  }

  datatype Spelling = Spelling(name: NoteName, accidental: Accidental)

  /** Semitones above C of a spelling; together with an octave it gives a MIDI number. */
  function SpellingValue(s: Spelling): int {
    LetterBase(s.name) + AccidentalOffset(s.accidental)
  }

  /** The sharp-preferring table of generateRandomNote. */
  function SharpTable(pc: PitchClass): (s: Spelling)
    ensures SpellingValue(s) == pc
    ensures s.accidental != Flat
    ensures s.accidental == Sharp <==> IsBlackKey(pc)
  {
    if pc == 0 then Spelling(C, Natural)
    else if pc == 1 then Spelling(C, Sharp)
    else if pc == 2 then Spelling(D, Natural)
    else if pc == 3 then Spelling(D, Sharp)
    else if pc == 4 then Spelling(E, Natural)
    else if pc == 5 then Spelling(F, Natural)
    else if pc == 6 then Spelling(F, Sharp)
    else if pc == 7 then Spelling(G, Natural)
    else if pc == 8 then Spelling(G, Sharp)
    else if pc == 9 then Spelling(A, Natural)
    else if pc == 10 then Spelling(A, Sharp)
    else Spelling(B, Natural)
  }

  /** The flat re-spelling used when accidentals are disallowed; it covers the black keys only. */
  function FlatTable(pc: PitchClass): (s: Option<Spelling>)
    ensures s.Some? <==> IsBlackKey(pc)
    ensures s.Some? ==> SpellingValue(s.value) == pc && s.value.accidental == Flat
  {
    if pc == 1 then Some(Spelling(D, Flat))
    else if pc == 3 then Some(Spelling(E, Flat))
    else if pc == 6 then Some(Spelling(G, Flat))
    else if pc == 8 then Some(Spelling(A, Flat))
    else if pc == 10 then Some(Spelling(B, Flat))
    else None
  }

  /** The mixed table of generateMultipleChoiceOptions: Eb and Bb, but C#, F# and G#. */
  function DistractorTable(pc: PitchClass): (s: Spelling)
    ensures SpellingValue(s) == pc
    ensures s.accidental == Natural <==> !IsBlackKey(pc)
    ensures s.accidental == Flat <==> pc == 3 || pc == 10
  {
    if pc == 0 then Spelling(C, Natural)
    else if pc == 1 then Spelling(C, Sharp)
    else if pc == 2 then Spelling(D, Natural)
    else if pc == 3 then Spelling(E, Flat)
    else if pc == 4 then Spelling(E, Natural)
    else if pc == 5 then Spelling(F, Natural)
    else if pc == 6 then Spelling(F, Sharp)
    else if pc == 7 then Spelling(G, Natural)
    else if pc == 8 then Spelling(G, Sharp)
    else if pc == 9 then Spelling(A, Natural)
    else if pc == 10 then Spelling(B, Flat)
    else Spelling(B, Natural)
  }

  /**
   * A note built from a MIDI number and a spelling, with octave
   * floor(midi / 12) - 1. Dafny's `/` and `%` agree with the engine's
   * floored division and remainder on the nonnegative MIDI numbers it decodes.
   */
  function Spell(midi: int, s: Spelling): (n: Note)
    ensures SpellingValue(s) == midi % 12 ==> NoteToMidi(n) == midi
  {
    Note(s.name, s.accidental, midi / 12 - 1)
  }

  /** Decoding with the sharp-preferring table. */
  function SharpDecode(midi: int): (n: Note)
    ensures NoteToMidi(n) == midi
    ensures n.octave == midi / 12 - 1 && n.accidental != Flat
  {
    Spell(midi, SharpTable(midi % 12))
  }

  /** Decoding with the distractor table. */
  function DistractorDecode(midi: int): (n: Note)
    ensures NoteToMidi(n) == midi
    ensures n.octave == midi / 12 - 1
  {
    Spell(midi, DistractorTable(midi % 12))
  }

  /** Decoding the encoding of any note gives an enharmonically equal note. */
  lemma DecodeEncode(n: Note)
    ensures NotesEqual(SharpDecode(NoteToMidi(n)), n)
    ensures NotesEqual(DistractorDecode(NoteToMidi(n)), n)
  {
  }

  // ---------------------------------------------------------------------------
  // Random note sampling

  /**
   * The values a uniform number in [0, 1), scaled by span and rounded
   * down, can take: 0 .. span - 1 when span is positive, span .. 0 otherwise.
   */
  predicate ScaledDraw(span: int, k: int) {
    if span > 0 then 0 <= k < span else span <= k <= 0
  }

  /** The MIDI number generateRandomNote draws. */
  function DrawnMidi(minNote: Note, draw: int): int {
    NoteToMidi(minNote) + draw
  }

  /**
   * generateRandomNote(minNote, maxNote, includeAccidentals), where `draw`
   * is the random offset above minMidi, scaled to the span of the range and
   * rounded down.
   * The drawn number is decoded with the sharp table; when accidentals are
   * disallowed a sharp is re-spelled as a flat and then the accidental is
   * dropped, keeping letter and octave.
   */
  function RandomNote(minNote: StaffNote, maxNote: StaffNote, includeAccidentals: bool, draw: int): (r: Note)
    requires ScaledDraw(NoteToMidi(maxNote) - NoteToMidi(minNote) + 1, draw)
    ensures r.octave == DrawnMidi(minNote, draw) / 12 - 1
    ensures includeAccidentals ==> NoteToMidi(r) == DrawnMidi(minNote, draw)
    ensures !includeAccidentals ==> r.accidental == Natural
    ensures !includeAccidentals ==>
      NoteToMidi(r) == if IsBlackKey(DrawnMidi(minNote, draw) % 12) then DrawnMidi(minNote, draw) + 1
                       else DrawnMidi(minNote, draw)
    ensures !includeAccidentals && !IsBlackKey(DrawnMidi(minNote, draw) % 12) ==> r == SharpDecode(DrawnMidi(minNote, draw))
    ensures NoteToMidi(minNote) <= NoteToMidi(maxNote) ==>
      NoteToMidi(minNote) <= NoteToMidi(r) <= NoteToMidi(maxNote) + (if includeAccidentals then 0 else 1)
    ensures NoteToMidi(minNote) <= NoteToMidi(maxNote) && !IsBlackKey(NoteToMidi(maxNote) % 12) ==>
      NoteToMidi(r) <= NoteToMidi(maxNote)
    ensures NoteToMidi(maxNote) < NoteToMidi(minNote) ==>
      NoteToMidi(maxNote) < NoteToMidi(r) <= NoteToMidi(minNote) + (if includeAccidentals then 0 else 1)
    ensures 1 <= r.octave <= 7
  {
    var minMidi := NoteToMidi(minNote);
    var maxMidi := NoteToMidi(maxNote);
    var midiNumber := draw + minMidi;
    var octave := midiNumber / 12 - 1;
    var noteValue := midiNumber % 12;
    var sharp := SharpTable(noteValue);
    var respelled := if !includeAccidentals && sharp.accidental == Sharp then FlatTable(noteValue).GetOr(sharp) else sharp;
    var info := if !includeAccidentals && respelled.accidental != Natural then Spelling(respelled.name, Natural) else respelled;
    Note(info.name, info.accidental, octave)
  }

  /** With accidentals allowed, the drawn MIDI number is spelled by the sharp table. */
  lemma RandomNoteSpelling(minNote: StaffNote, maxNote: StaffNote, draw: int)
    requires ScaledDraw(NoteToMidi(maxNote) - NoteToMidi(minNote) + 1, draw)
    ensures RandomNote(minNote, maxNote, true, draw) == SharpDecode(DrawnMidi(minNote, draw))
  {
  }

  /** The beginner level (C4..C5, no accidentals) yields naturals in octaves 4 and 5 between C4 and C5. */
  lemma BeginnerSamples(draw: int)
    requires ScaledDraw(13, draw)
    ensures var r := RandomNote(Note(C, Natural, 4), Note(C, Natural, 5), false, draw);
      r.accidental == Natural && 4 <= r.octave <= 5 && 60 <= NoteToMidi(r) <= 72
  {
  }

  /**
   * With a one-note range every draw is 0. With accidentals allowed the
   * result is that pitch, spelled by the sharp table; without them a
   * natural note comes back as an equal note.
   */
  lemma SingleNoteRange(n: StaffNote, draw: int)
    requires ScaledDraw(1, draw)
    ensures NotesEqual(RandomNote(n, n, true, draw), n)
    ensures RandomNote(n, n, true, draw) == SharpDecode(NoteToMidi(n))
    ensures n.accidental == Natural ==> NotesEqual(RandomNote(n, n, false, draw), n)
  {
    var m := NoteToMidi(n);
    assert draw == 0 && DrawnMidi(n, draw) == m;
    if n.accidental == Natural {
      assert m % 12 == LetterBase(n.name);
      assert !IsBlackKey(m % 12);
    }
  }

  /** A one-note range of Eb4 yields D#4: the same pitch, spelled by the sharp table. */
  lemma SharpRespelling()
    ensures RandomNote(Note(E, Flat, 4), Note(E, Flat, 4), true, 0) == Note(D, Sharp, 4)
  {
    assert DrawnMidi(Note(E, Flat, 4), 0) == 63;
  }

  /** The unchecked octave cast: Cb2 yields B1 and B#6 yields C7, outside the declared octaves. */
  lemma OctaveOutsideDeclared()
    ensures RandomNote(Note(C, Flat, 2), Note(C, Flat, 2), true, 0) == Note(B, Natural, 1)
    ensures RandomNote(Note(B, Sharp, 6), Note(B, Sharp, 6), true, 0) == Note(C, Natural, 7)
  {
    assert DrawnMidi(Note(C, Flat, 2), 0) == 35;
    assert DrawnMidi(Note(B, Sharp, 6), 0) == 96;
  }

  /** With accidentals disallowed a range of A#4 alone yields B4, one semitone above the range. */
  lemma NaturalAboveRange()
    ensures RandomNote(Note(A, Sharp, 4), Note(A, Sharp, 4), false, 0) == Note(B, Natural, 4)
  {
    assert DrawnMidi(Note(A, Sharp, 4), 0) == 70 && 70 % 12 == 10 && 70 / 12 == 5;
    assert FlatTable(10).GetOr(SharpTable(10)) == Spelling(B, Flat);
  }

  // ---------------------------------------------------------------------------
  // Multiple-choice options

  type Step = s: int | 1 <= s <= 5 witness 1

  /**
   * One distractor draw: whether the offset goes up (a coin toss) and its
   * size, one to five semitones.
   */
  datatype OffsetDraw = OffsetDraw(up: bool, step: Step)

  function Offset(d: OffsetDraw): (k: int)
    ensures 1 <= k <= 5 || -5 <= k <= -1
  {
    if d.up then d.step else -(d.step as int)
  }

  function Distance(a: int, b: int): nat {
    if a <= b then b - a else a - b
  }

  /** What every option other than the correct note is. */
  predicate IsDistractor(correctNote: Note, d: Note) {
    1 <= Distance(NoteToMidi(d), NoteToMidi(correctNote)) <= 5
    && 24 <= NoteToMidi(d) <= 96
    && d == DistractorDecode(NoteToMidi(d))
  }

  /** Whether some option is notesEqual to n: the uniqueness test before a distractor is added. */
  predicate SomeEqual(options: seq<Note>, n: Note) {
    exists k :: 0 <= k < |options| && NotesEqual(options[k], n)
  }

  /** No two options share a MIDI number, so none is notesEqual to another. */
  predicate DistinctPitches(s: seq<Note>) {
    forall i, j :: 0 <= i < |s| && 0 <= j < |s| && i != j ==> NoteToMidi(s[i]) != NoteToMidi(s[j])
  }

  /** The MIDI numbers of a list of notes. */
  function Pitches(s: seq<Note>): set<int>
    decreases |s|
  {
    if |s| == 0 then {} else Pitches(s[..|s| - 1]) + {NoteToMidi(s[|s| - 1])}
  }

  /** A pitch belongs to a list exactly when some note of the list has it. */
  lemma {:induction false} PitchesMembers(s: seq<Note>, x: int)
    ensures x in Pitches(s) <==> exists k :: 0 <= k < |s| && NoteToMidi(s[k]) == x
    decreases |s|
  {
    if |s| > 0 {
      var init := s[..|s| - 1];
      PitchesMembers(init, x);
      if x in Pitches(init) {
        var k :| 0 <= k < |init| && NoteToMidi(init[k]) == x;
        assert s[k] == init[k];
      }
      if exists k :: 0 <= k < |s| && NoteToMidi(s[k]) == x {
        var k :| 0 <= k < |s| && NoteToMidi(s[k]) == x;
        if k < |s| - 1 {
          assert init[k] == s[k];
        }
      }
    }
  }

  /** Reordering a list of notes keeps its pitches. */
  lemma PermutedPitches(s: seq<Note>, t: seq<Note>)
    requires multiset(s) == multiset(t)
    ensures Pitches(s) == Pitches(t)
  {
    forall x | x in Pitches(s)
      ensures x in Pitches(t)
    {
      PitchesMembers(s, x);
      PitchesMembers(t, x);
      var k :| 0 <= k < |s| && NoteToMidi(s[k]) == x;
      assert s[k] in multiset(t);
      var j :| 0 <= j < |t| && t[j] == s[k];
    }
    forall x | x in Pitches(t)
      ensures x in Pitches(s)
    {
      PitchesMembers(s, x);
      PitchesMembers(t, x);
      var k :| 0 <= k < |t| && NoteToMidi(t[k]) == x;
      assert t[k] in multiset(s);
      var j :| 0 <= j < |s| && s[j] == t[k];
    }
  }

  /** The MIDI number a draw proposes: the correct note's, moved by the draw's offset. */
  function CandidateMidi(correctNote: Note, d: OffsetDraw): int {
    NoteToMidi(correctNote) + Offset(d)
  }

  /** The pitch one draw proposes, if it passes the 24..96 range test. */
  function Proposal(correctNote: Note, d: OffsetDraw): set<int> {
    var m := CandidateMidi(correctNote, d);
    if 24 <= m <= 96 then {m} else {}
  }

  /**
   * The distinct pitches the draws propose that pass the range test; the
   * correct note's own pitch is never among them.
   */
  function Candidates(correctNote: Note, draws: seq<OffsetDraw>): (c: set<int>)
    ensures NoteToMidi(correctNote) !in c
    ensures forall m :: m in c ==> 24 <= m <= 96
    decreases |draws|
  {
    if |draws| == 0 then {}
    else Candidates(correctNote, draws[..|draws| - 1]) + Proposal(correctNote, draws[|draws| - 1])
  }

  /** Reading one more draw adds its proposal to the candidates. */
  lemma CandidatesStep(correctNote: Note, draws: seq<OffsetDraw>, i: nat)
    requires i < |draws|
    ensures Candidates(correctNote, draws[..i + 1]) == Candidates(correctNote, draws[..i]) + Proposal(correctNote, draws[i])
  {
    assert draws[..i + 1][..i] == draws[..i];
  }

  /** The candidates of a prefix of the draws are candidates of all of them. */
  lemma {:induction false} CandidatesOfPrefix(correctNote: Note, draws: seq<OffsetDraw>, i: nat)
    requires i <= |draws|
    ensures Candidates(correctNote, draws[..i]) <= Candidates(correctNote, draws)
    decreases |draws| - i
  {
    if i < |draws| {
      CandidatesOfPrefix(correctNote, draws, i + 1);
      CandidatesStep(correctNote, draws, i);
    } else {
      assert draws[..i] == draws;
    }
  }

  lemma SubsetSize(a: set<int>, b: set<int>)
    requires a <= b
    ensures |a| <= |b|
  {
    assert b == a + (b - a);
    assert a * (b - a) == {};
  }

  /** Adding a note whose pitch no option has keeps the pitches distinct and adds one pitch. */
  lemma AddKeepsDistinct(options: seq<Note>, n: Note)
    requires DistinctPitches(options) && !SomeEqual(options, n)
    requires |Pitches(options)| == |options|
    ensures DistinctPitches(options + [n])
    ensures Pitches(options + [n]) == Pitches(options) + {NoteToMidi(n)}
    ensures |Pitches(options + [n])| == |options + [n]|
  {
    var t := options + [n];
    assert t[..|t| - 1] == options;
    PitchesMembers(options, NoteToMidi(n));
    forall i, j | 0 <= i < |t| && 0 <= j < |t| && i != j
      ensures NoteToMidi(t[i]) != NoteToMidi(t[j])
    {
      if i == |options| {
        assert !NotesEqual(options[j], n);
      } else if j == |options| {
        assert !NotesEqual(options[i], n);
      }
    }
  }

  lemma SwapKeepsDistinct(s: seq<Note>, i: nat, j: nat)
    requires i < |s| && j < |s| && DistinctPitches(s)
    ensures DistinctPitches(s[i := s[j]][j := s[i]])
  {
  }

  lemma SwapKeepsMultiset(s: seq<Note>, i: nat, j: nat)
    requires i < |s| && j < |s|
    ensures multiset(s[i := s[j]][j := s[i]]) == multiset(s)
  {
  }

  /**
   * The in-place sort with a random comparator that ends option generation.
   * The comparator's answers are an input: each entry of `swaps` exchanges
   * two positions (taken modulo the length), which reaches every order the
   * sort could leave.
   */
  method Shuffle(a: array<Note>, swaps: seq<(nat, nat)>)
    modifies a
    ensures multiset(a[..]) == old(multiset(a[..]))
    ensures DistinctPitches(old(a[..])) ==> DistinctPitches(a[..])
  {
    if a.Length == 0 {
      return;
    }
    var t := 0;
    while t < |swaps|
      invariant 0 <= t <= |swaps|
      invariant multiset(a[..]) == old(multiset(a[..]))
      invariant DistinctPitches(old(a[..])) ==> DistinctPitches(a[..])
    {
      var i, j := swaps[t].0 % a.Length, swaps[t].1 % a.Length;
      ghost var before := a[..];
      a[i], a[j] := a[j], a[i];
      assert a[..] == before[i := before[j]][j := before[i]];
      SwapKeepsMultiset(before, i, j);
      if DistinctPitches(before) {
        SwapKeepsDistinct(before, i, j);
      }
      t := t + 1;
    }
  }

  /**
   * What holds of the options after the first i draws: the correct note
   * leads, the rest are distractors, no two share a pitch, and their
   * pitches are the correct note's and the candidates of those draws.
   */
  predicate Gathered(correctNote: Note, options: seq<Note>, draws: seq<OffsetDraw>, i: nat)
    requires i <= |draws|
  {
    && 1 <= |options| && options[0] == correctNote
    && DistinctPitches(options)
    && (forall k :: 1 <= k < |options| ==> IsDistractor(correctNote, options[k]))
    && Pitches(options) == {NoteToMidi(correctNote)} + Candidates(correctNote, draws[..i])
    && |Pitches(options)| == |options|
  }

  /** A draw whose candidate falls outside 24..96 proposes nothing. */
  lemma GatherSkip(correctNote: Note, options: seq<Note>, draws: seq<OffsetDraw>, i: nat)
    requires i < |draws| && Gathered(correctNote, options, draws, i)
    requires !(24 <= CandidateMidi(correctNote, draws[i]) <= 96)
    ensures Gathered(correctNote, options, draws, i + 1)
  {
    CandidatesStep(correctNote, draws, i);
  }

  /** A draw whose candidate pitch an option already has changes nothing. */
  lemma GatherKeep(correctNote: Note, options: seq<Note>, draws: seq<OffsetDraw>, i: nat)
    requires i < |draws| && Gathered(correctNote, options, draws, i)
    requires 24 <= CandidateMidi(correctNote, draws[i]) <= 96
    requires SomeEqual(options, DistractorDecode(CandidateMidi(correctNote, draws[i])))
    ensures Gathered(correctNote, options, draws, i + 1)
  {
    CandidatesStep(correctNote, draws, i);
    PitchesMembers(options, CandidateMidi(correctNote, draws[i]));
  }

  /** A draw with a new in-range candidate adds it, spelled by the distractor table. */
  lemma GatherAdd(correctNote: Note, options: seq<Note>, draws: seq<OffsetDraw>, i: nat)
    requires i < |draws| && Gathered(correctNote, options, draws, i)
    requires 24 <= CandidateMidi(correctNote, draws[i]) <= 96
    requires !SomeEqual(options, DistractorDecode(CandidateMidi(correctNote, draws[i])))
    ensures Gathered(correctNote, options + [DistractorDecode(CandidateMidi(correctNote, draws[i]))], draws, i + 1)
  {
    var n := DistractorDecode(CandidateMidi(correctNote, draws[i]));
    CandidatesStep(correctNote, draws, i);
    AddKeepsDistinct(options, n);
    NewDistractor(correctNote, draws[i]);
    AppendDistractor(correctNote, options, n);
  }

  /** An in-range candidate, spelled by the distractor table, is a distractor. */
  lemma NewDistractor(correctNote: Note, d: OffsetDraw)
    requires 24 <= CandidateMidi(correctNote, d) <= 96
    ensures IsDistractor(correctNote, DistractorDecode(CandidateMidi(correctNote, d)))
  {
  }

  /** Appending a distractor to options led by the correct note keeps that shape. */
  lemma AppendDistractor(correctNote: Note, options: seq<Note>, n: Note)
    requires 1 <= |options| && options[0] == correctNote
    requires forall k :: 1 <= k < |options| ==> IsDistractor(correctNote, options[k])
    requires IsDistractor(correctNote, n)
    ensures var t := options + [n];
      t[0] == correctNote && forall k :: 1 <= k < |t| ==> IsDistractor(correctNote, t[k])
  {
    var t := options + [n];
    forall k | 1 <= k < |t|
      ensures IsDistractor(correctNote, t[k])
    {
      if k < |options| {
        assert t[k] == options[k];
      }
    }
  }

  /** The correct note alone is gathered before any draw. */
  lemma GatherStart(correctNote: Note, draws: seq<OffsetDraw>)
    ensures Gathered(correctNote, [correctNote], draws, 0)
  {
    assert [correctNote][..0] == [];
    assert draws[..0] == [];
  }

  /** Gathered options number one more than the candidates they were drawn from. */
  lemma GatheredSize(correctNote: Note, options: seq<Note>, draws: seq<OffsetDraw>, i: nat)
    requires i <= |draws| && Gathered(correctNote, options, draws, i)
    ensures |options| == |Candidates(correctNote, draws[..i])| + 1
  {
    var m0 := NoteToMidi(correctNote);
    var found := Candidates(correctNote, draws[..i]);
    assert {m0} + found == found + {m0};
  }

  /**
   * When gathering stops, because `count` options exist or the draws are
   * used up, the options fall short of `count` exactly when the draws
   * propose too few distinct in-range pitches.
   */
  lemma GatherDone(correctNote: Note, options: seq<Note>, draws: seq<OffsetDraw>, i: nat, count: int)
    requires i <= |draws| && Gathered(correctNote, options, draws, i)
    requires |options| == 1 || |options| <= count
    requires |options| >= count || i == |draws|
    ensures |options| < count <==> count > 1 && |Candidates(correctNote, draws)| < count - 1
    ensures Pitches(options) <= {NoteToMidi(correctNote)} + Candidates(correctNote, draws)
  {
    var found := Candidates(correctNote, draws[..i]);
    GatheredSize(correctNote, options, draws, i);
    CandidatesOfPrefix(correctNote, draws, i);
    if |options| < count {
      assert draws[..i] == draws;
    } else {
      SubsetSize(found, Candidates(correctNote, draws));
    }
  }

  /**
   * The accumulation loop of generateMultipleChoiceOptions: starting from
   * the correct note, each draw's candidate in 24..96 is spelled with the
   * distractor table and added unless an option already has its pitch. The
   * engine's loop has no retry cap; here it also stops when the draws run
   * out, and then holds fewer than `count` options exactly when the draws
   * propose too few distinct in-range pitches. `used` is the number of
   * draws the loop read: the options' pitches are the correct note's and
   * the candidates of exactly those draws, and the loop read no draw after
   * the options reached `count`.
   */
  method CollectOptions(correctNote: Note, count: int, draws: seq<OffsetDraw>) returns (options: seq<Note>, used: nat)
    ensures 1 <= |options| && options[0] == correctNote
    ensures |options| == 1 || |options| <= count
    ensures |options| < count <==> count > 1 && |Candidates(correctNote, draws)| < count - 1
    ensures DistinctPitches(options)
    ensures forall k :: 1 <= k < |options| ==> IsDistractor(correctNote, options[k])
    ensures Pitches(options) <= {NoteToMidi(correctNote)} + Candidates(correctNote, draws)
    ensures used <= |draws| && Pitches(options) == {NoteToMidi(correctNote)} + Candidates(correctNote, draws[..used])
    ensures used > 0 ==> |Candidates(correctNote, draws[..used - 1])| + 1 < count
    ensures |options| < count ==> used == |draws|
  {
    options := [correctNote];
    used := 0;
    GatherStart(correctNote, draws);
    while |options| < count && used < |draws|
      invariant 0 <= used <= |draws|
      invariant |options| == 1 || |options| <= count
      invariant Gathered(correctNote, options, draws, used)
      invariant used > 0 ==> |Candidates(correctNote, draws[..used - 1])| + 1 < count
    {
      GatheredSize(correctNote, options, draws, used);
      var newMidi := NoteToMidi(correctNote) + Offset(draws[used]);
      assert newMidi == CandidateMidi(correctNote, draws[used]);
      if 24 <= newMidi <= 96 {
        var newNote := DistractorDecode(newMidi);
        if !SomeEqual(options, newNote) {
          GatherAdd(correctNote, options, draws, used);
          options := options + [newNote];
        } else {
          GatherKeep(correctNote, options, draws, used);
        }
      } else {
        GatherSkip(correctNote, options, draws, used);
      }
      used := used + 1;
    }
    GatherDone(correctNote, options, draws, used, count);
  }

  /**
   * generateMultipleChoiceOptions(correctNote, count); the engine's default
   * count of 4 is an explicit argument. `draws` are the successive offset
   * draws and `swaps` the shuffle's random choices; `used` is how many
   * draws the loop read. The result is None exactly when the draws run out
   * before `count` options exist.
   */
  method MultipleChoiceOptions(correctNote: Note, count: int, draws: seq<OffsetDraw>, swaps: seq<(nat, nat)>)
    returns (result: Option<seq<Note>>, used: nat)
    ensures count <= 1 ==> result == Some([correctNote])
    ensures result.None? <==> count > 1 && |Candidates(correctNote, draws)| < count - 1
    ensures result.None? ==> used == |draws|
    ensures result.Some? ==> |result.value| == if count < 1 then 1 else count
    ensures result.Some? ==> correctNote in result.value
    ensures result.Some? ==> DistinctPitches(result.value)
    ensures result.Some? ==> forall o :: o in result.value ==> o == correctNote || IsDistractor(correctNote, o)
    ensures result.Some? ==> Pitches(result.value) <= {NoteToMidi(correctNote)} + Candidates(correctNote, draws)
    ensures used <= |draws|
    ensures result.Some? ==> Pitches(result.value) == {NoteToMidi(correctNote)} + Candidates(correctNote, draws[..used])
    ensures used > 0 ==> |Candidates(correctNote, draws[..used - 1])| + 1 < count
  {
    var options;
    options, used := CollectOptions(correctNote, count, draws);
    if |options| < count {
      return None, used;
    }
    var a := new Note[|options|](k requires 0 <= k < |options| => options[k]);
    assert a[..] == options;
    Shuffle(a, swaps);
    var shuffled := a[..];
    forall o | o in shuffled
      ensures o == correctNote || IsDistractor(correctNote, o)
    {
      assert o in multiset(options);
      var k :| 0 <= k < |options| && options[k] == o;
    }
    PermutedPitches(options, shuffled);
    assert correctNote in multiset(shuffled);
    if count <= 1 {
      assert |shuffled| == 1 && shuffled[0] in multiset(options);
      assert shuffled == [correctNote];
    }
    return Some(shuffled), used;
  }

  // ---------------------------------------------------------------------------
  // Text forms of a note

  function LetterText(name: NoteName): string {
    match name
    case C => "C"
    case D => "D"
    case E => "E"
    case F => "F"
    case G => "G"
    case A => "A"
    case B => "B"
  }

  /** The letter in lower case, as VexFlow keys write it. */
  function LowerLetterText(name: NoteName): string {
    match name
    case C => "c"
    case D => "d"
    case E => "e"
    case F => "f"
    case G => "g"
    case A => "a"
    case B => "b"
  }

  /** The accidental's own text, which is also what VexFlow's accidentalMap maps it to. */
  function AccidentalText(acc: Accidental): string {
    match acc
    case Natural => ""
    case Sharp => "#"
    case Flat => "b"
  }

  /**
   * getNoteDisplayName: letter, accidental, octave, as in "C#4". The name
   * determines the note: reading it back gives the note again, and
   * DisplayNameCanonical shows no other text reads back as that note.
   */
  function NoteDisplayName(n: Note): (s: string)
    ensures ParseDisplayName(s) == Some(n)
  {
    var digits := IntToDecimal(n.octave);
    var s := LetterText(n.name) + AccidentalText(n.accidental) + digits;
    assert s[1..] == AccidentalText(n.accidental) + digits;
    AccidentalTextSplits(n.accidental, digits);
    IntDecimalRoundTrip(n.octave);
    s
  }

  /**
   * noteToVexFlowKey: lower-case letter, accidental, "/", octave, as in
   * "c#/4"; the clef is ignored. The key determines the note, whatever the
   * clef, and VexFlowKeyCanonical shows no other text reads back as that note.
   */
  function NoteToVexFlowKey(n: Note, clef: Clef): (s: string)
    ensures ParseVexFlowKey(s) == Some(n)
  {
    var digits := IntToDecimal(n.octave);
    var s := LowerLetterText(n.name) + AccidentalText(n.accidental) + "/" + digits;
    assert s[1..] == AccidentalText(n.accidental) + ("/" + digits);
    AccidentalTextSplits(n.accidental, "/" + digits);
    assert ("/" + digits)[1..] == digits;
    IntDecimalRoundTrip(n.octave);
    s
  }

  /** getVexFlowClef: the clef's own name, which reads back as the clef. */
  function VexFlowClef(clef: Clef): (s: string)
    ensures ParseClef(s) == Some(clef)
  {
    match clef
    case Treble => "treble"
    case Bass => "bass"
  }

  // Readers that invert the text forms above.

  function ParseLetter(c: char): Option<NoteName> {
    if c == 'C' then Some(C) else if c == 'D' then Some(D) else if c == 'E' then Some(E)
    else if c == 'F' then Some(F) else if c == 'G' then Some(G) else if c == 'A' then Some(A)
    else if c == 'B' then Some(B) else None
  }

  function ParseLowerLetter(c: char): Option<NoteName> {
    if c == 'c' then Some(C) else if c == 'd' then Some(D) else if c == 'e' then Some(E)
    else if c == 'f' then Some(F) else if c == 'g' then Some(G) else if c == 'a' then Some(A)
    else if c == 'b' then Some(B) else None
  }

  /** Splits a leading "#" or "b" off the text. */
  function ParseAccidental(s: string): (Accidental, string) {
    if 1 <= |s| && s[0] == '#' then (Sharp, s[1..])
    else if 1 <= |s| && s[0] == 'b' then (Flat, s[1..])
    else (Natural, s)
  }

  function ParseDisplayName(s: string): Option<Note> {
    if |s| == 0 then None
    else match ParseLetter(s[0])
      case None => None
      case Some(name) =>
        var (acc, rest) := ParseAccidental(s[1..]);
        match ParseInt(rest)
        case None => None
        case Some(o) => Some(Note(name, acc, o))
  }

  function ParseVexFlowKey(s: string): Option<Note> {
    if |s| == 0 then None
    else match ParseLowerLetter(s[0])
      case None => None
      case Some(name) =>
        var (acc, rest) := ParseAccidental(s[1..]);
        if |rest| == 0 || rest[0] != '/' then None
        else match ParseInt(rest[1..])
          case None => None
          case Some(o) => Some(Note(name, acc, o))
  }

  function ParseClef(s: string): Option<Clef> {
    if s == "treble" then Some(Treble) else if s == "bass" then Some(Bass) else None
  }

  lemma AccidentalTextSplits(acc: Accidental, rest: string)
    requires |rest| >= 1 && rest[0] != '#' && rest[0] != 'b'
    ensures ParseAccidental(AccidentalText(acc) + rest) == (acc, rest)
  {
    var s := AccidentalText(acc) + rest;
    if acc != Natural {
      assert s[1..] == rest;
    } else {
      assert s == rest;
    }
  }

  /** A reader's split of the accidental text can be undone by concatenation. */
  lemma AccidentalTextJoins(s: string)
    ensures AccidentalText(ParseAccidental(s).0) + ParseAccidental(s).1 == s
  {
    if 1 <= |s| && (s[0] == '#' || s[0] == 'b') {
      assert s == [s[0]] + s[1..];
    }
  }

  /**
   * The display name is the only text that reads back as the note: the
   * octave is written without padding, exactly as getNoteDisplayName does.
   */
  lemma DisplayNameCanonical(t: string, n: Note)
    ensures ParseDisplayName(t) == Some(n) <==> t == NoteDisplayName(n)
  {
    if ParseDisplayName(t) == Some(n) {
      var (acc, rest) := ParseAccidental(t[1..]);
      AccidentalTextJoins(t[1..]);
      ParseIntCanonical(rest);
      assert LetterText(n.name) == [t[0]];
      assert t == [t[0]] + t[1..];
    }
  }

  /** The VexFlow key is the only text that reads back as the note. */
  lemma VexFlowKeyCanonical(t: string, n: Note, clef: Clef)
    ensures ParseVexFlowKey(t) == Some(n) <==> t == NoteToVexFlowKey(n, clef)
  {
    if ParseVexFlowKey(t) == Some(n) {
      var (acc, rest) := ParseAccidental(t[1..]);
      AccidentalTextJoins(t[1..]);
      var digits := rest[1..];
      ParseIntCanonical(digits);
      assert digits == IntToDecimal(n.octave);
      assert LowerLetterText(n.name) == [t[0]] && acc == n.accidental;
      assert rest == "/" + digits;
      assert t == [t[0]] + t[1..];
    }
  }

  /** Different notes have different display names, so the name can key an option list. */
  lemma DisplayNameInjective(a: Note, b: Note)
    ensures NoteDisplayName(a) == NoteDisplayName(b) ==> a == b
  {
  }

  /** VexFlow keys of C#4, Bb3 and C4. */
  lemma VexFlowKeyExamples()
    ensures NoteToVexFlowKey(Note(C, Sharp, 4), Treble) == "c#/4"
    ensures NoteToVexFlowKey(Note(B, Flat, 3), Bass) == "bb/3"
    ensures NoteToVexFlowKey(Note(C, Natural, 4), Treble) == "c/4"
  {
  }

  /** Display names of C#4 and Eb5. */
  lemma DisplayNameExamples()
    ensures NoteDisplayName(Note(C, Sharp, 4)) == "C#4"
    ensures NoteDisplayName(Note(E, Flat, 5)) == "Eb5"
  {
  }
}
