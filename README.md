# Sheet-trainer note engine, in Dafny

This project models the note engine of a sheet-music reading trainer. The engine and its operations:

- **Pitch encoding and equality.** A note is a letter, an accidental and an octave. Its MIDI number is (octave+1)·12 plus the letter's semitones above C, plus one for a sharp or minus one for a flat. Two notes are equal when their MIDI numbers are equal, so C#4 and Db4 count as the same note.
- **Random note sampling.** The engine draws a MIDI number in a closed range and decodes it with a sharp-preferring table. When accidentals are disallowed, it re-spells a sharp as a flat and then drops the accidental.
- **Multiple-choice options.** The option list starts with the correct note. The engine then adds distractors 1–5 semitones away, within MIDI 24..96, spelled with a third, mixed table. Distractors that repeat a pitch already in the list are dropped. At the end the list is shuffled in place.
- **Text forms.** A note has a display name (`C#4`) and a VexFlow key (`c#/4`); the clef also has a VexFlow name.
- **The on-screen piano.** The layout is twelve keys per octave in chromatic order. The model also covers its white/black split and the selection test.

Modules, one per source file plus two helpers:

| file | module | models |
|---|---|---|
| music_types.dfy | `MusicTypes` | src/types/music.ts: `NoteName`, `Accidental`, the octave range (`IsOctave`), `Note`, `StaffNote`, `Clef` |
| music_utils.dfy | `MusicUtils` | src/lib/music-utils.ts |
| virtual_keyboard.dfy | `VirtualKeyboard` | `generateKeys`, the filters and `isSelected` of src/components/practice/virtual-keyboard.tsx |
| decimal.dfy | `Decimal` | how a template literal renders the small integral octave numbers the program forms (`${octave}`), and a reader that accepts exactly that text: no leading zeros, no `-0` |
| wrappers.dfy | `Wrappers` | `Option` |

Modelling choices:

- **Octaves are plain integers.** `Note.octave` is an `int`. The engine casts computed octaves to the `Octave` type (2..6) without a check, so decoded notes can fall outside it: Cb2 decodes as B1, B#6 as C7, and distractors can sit in octaves 1..7. `StaffNote` is the subset of notes whose octave really lies in 2..6. The range bounds given to the sampler are `StaffNote`s.
- **A range draw is an input.** The value of `Math.floor(Math.random() * span)` is a parameter of `RandomNote`. `ScaledDraw` says which values it can take: 0..span-1 for a positive span, span..0 otherwise. A reversed range (min above max) is therefore modelled as the engine runs it, not ruled out by a precondition.
- **Floor and remainder.** The engine decodes with `Math.floor(midi / 12)` and `midi % 12`. On the nonnegative MIDI numbers it decodes, these agree with Dafny's `/` and `%`.
- **The options loop reads a finite draw list.** Each `OffsetDraw` is one of the engine's offset draws, and the methods also return how many of them the loop read. The engine's loop has no retry cap. Here it stops when the draws run out, and returns `None` if fewer than `count` options exist by then. That happens exactly when the draws propose fewer than `count - 1` distinct in-range pitches. The other properties are stated for the `Some` case, which is the case where the engine's loop ends.
- **Defaults become arguments.** The option count (4 by default) is the `count` parameter of `MultipleChoiceOptions`, and the keyboard's octave range ([3, 5] by default) is the `startOctave`/`endOctave` pair of `Keyboard` and `GenerateKeys`.
- **The shuffle is a list of swaps.** The sort with the random comparator is modelled as a sequence of swaps chosen by the random source, applied in place to an array. Only its effect is promised: the result is a permutation of the options.

Three behaviours of the code that are easy to miss:

- A one-note range does not always return the note given. With accidentals allowed it returns the same pitch, spelled by the sharp table: a range Eb4..Eb4 yields D#4 (`MusicUtils.SharpRespelling`). With accidentals off, a black one-note range gives the upper natural: A#4..A#4 yields B4 (`MusicUtils.NaturalAboveRange`).
- The options are de-duplicated by MIDI number (`notesEqual`), not by display name. The display name is still injective (`MusicUtils.DisplayNameInjective`).
- Sampling a "natural-only" note always takes the strip step after the flat re-spelling, because every flat spelling carries "b". A black-key draw m therefore yields the upper natural, m+1. The result can exceed the range by one semitone only when the upper bound is itself a black key (`MusicUtils.RandomNote`, `MusicUtils.NaturalAboveRange`).

## Model

| member | source | states |
|---|---|---|
| MusicUtils.NoteToMidi | src/lib/music-utils.ts:12-30 | for octaves 2..6 the MIDI number lies in [35, 96]; for any octave o it lies in [12·o+11, 12·o+24] |
| MusicUtils.MidiLayout | src/lib/music-utils.ts:13-29 | an octave adds 12, a sharp adds 1 and a flat subtracts 1; the naturals C..B of an octave strictly ascend and stay below the next C |
| MusicUtils.NotesEqual | src/lib/music-utils.ts:35-37 | two notes are equal exactly when their MIDI numbers decode to the same sharp-table spelling |
| MusicUtils.NotesEqualIsEquivalence | src/lib/music-utils.ts:35-37 | notesEqual is reflexive, symmetric and transitive |
| MusicUtils.EnharmonicExamples | src/lib/music-utils.ts:35-37 | D#4 equals Eb4, C#4 equals Db4 though spelled differently, B#3 equals C4, and C4 differs from C5 |
| MusicUtils.SharpTable | src/lib/music-utils.ts:65-78 | every entry spells its pitch class; it never uses a flat; it uses a sharp exactly on the five black keys |
| MusicUtils.FlatTable | src/lib/music-utils.ts:84-90 | defined exactly on the black keys; each entry is a flat spelling of its pitch class |
| MusicUtils.DistractorTable | src/lib/music-utils.ts:123-136 | every entry spells its pitch class; natural exactly off the black keys; flat exactly at Eb and Bb |
| MusicUtils.Spell | src/lib/music-utils.ts:61-62 | a spelling of midi mod 12 placed in octave floor(midi/12)-1 encodes back to midi |
| MusicUtils.SharpDecode | src/lib/music-utils.ts:58-80 | decoding with the sharp table gives a note whose MIDI number is the input, in octave floor(midi/12)-1, never flat |
| MusicUtils.DistractorDecode | src/lib/music-utils.ts:120-143 | decoding with the distractor table gives a note whose MIDI number is the input, in octave floor(midi/12)-1 |
| MusicUtils.DecodeEncode | src/lib/music-utils.ts:54-80 | decoding the MIDI number of any note, with either table, yields a note equal to it |
| MusicUtils.RandomNote | src/lib/music-utils.ts:49-104 | with accidentals the result's MIDI number is minMidi + draw, so it lies in [minMidi, maxMidi]. Without accidentals the result is natural: a black-key draw m gives MIDI m+1 and a white-key draw is returned as drawn. The result then lies in [minMidi, maxMidi+1], and within maxMidi unless maxMidi is a black key. A reversed range gives (maxMidi, minMidi], plus one semitone without accidentals. The octave is always floor(midi/12)-1, within 1..7 |
| MusicUtils.RandomNoteSpelling | src/lib/music-utils.ts:54-80 | with accidentals allowed, the result is the sharp-table spelling of the drawn MIDI number minMidi + draw |
| MusicUtils.BeginnerSamples | src/config/difficulty.ts:7-17 | the beginner level (C4..C5, no accidentals) yields natural notes in octaves 4 and 5 with MIDI numbers 60..72 |
| MusicUtils.SingleNoteRange | src/lib/music-utils.ts:54-80 | with accidentals allowed, a one-note range gives that pitch spelled by the sharp table; without accidentals, a natural one-note range gives a note equal to it |
| MusicUtils.SharpRespelling | src/lib/music-utils.ts:65-80 | a range Eb4..Eb4 yields D#4 |
| MusicUtils.OctaveOutsideDeclared | src/lib/music-utils.ts:61-102 | a range Cb2..Cb2 yields B1 and B#6..B#6 yields C7, octaves outside 2..6 |
| MusicUtils.NaturalAboveRange | src/lib/music-utils.ts:83-97 | without accidentals a range A#4..A#4 yields B4, one semitone above the range |
| MusicUtils.Offset | src/lib/music-utils.ts:114 | a distractor offset is 1..5 or -5..-1 semitones |
| MusicUtils.Shuffle | src/lib/music-utils.ts:152 | the shuffled array holds the same multiset of notes; pairwise-distinct pitches stay distinct |
| MusicUtils.Candidates | src/lib/music-utils.ts:114-118 | the pitches a list of offset draws proposes that pass the 24..96 test: never the correct note's own pitch, always within 24..96 |
| MusicUtils.CollectOptions | src/lib/music-utils.ts:110-149 | the loop keeps the correct note first, adds only distractors, and never two options with the same pitch. With `used` the number of draws it read, the option pitches are exactly the correct note's plus the candidates of those draws. It read no draw after the options reached count, and it falls short of count (having read every draw) exactly when the draws propose fewer than count - 1 distinct in-range pitches |
| MusicUtils.MultipleChoiceOptions | src/lib/music-utils.ts:109-153 | the result is None exactly when the draws propose fewer than count - 1 distinct in-range pitches. Otherwise there are exactly count options (one if count < 1), the correct note is among them, and no two are notesEqual. Every other option is 1–5 semitones from the correct note, has MIDI in 24..96, and is spelled by the distractor table. The option pitches are exactly the correct note's plus the candidates of the first `used` draws, and no draw was read after count options existed, so they are the first distinct proposals in draw order. With count ≤ 1 the result is just the correct note |
| MusicUtils.NoteDisplayName | src/lib/music-utils.ts:42-44 | the display name, letter ++ accidental ++ octave, reads back as the same note; with `MusicUtils.DisplayNameCanonical` this fixes the text character for character |
| MusicUtils.VexFlowClef | src/lib/music-utils.ts:158-160 | the VexFlow clef name reads back as the same clef |
| MusicUtils.NoteToVexFlowKey | src/lib/music-utils.ts:165-174 | the VexFlow key, lower-case letter ++ accidental ++ "/" ++ octave, reads back as the same note, for either clef; with `MusicUtils.VexFlowKeyCanonical` this fixes the key character for character |
| MusicUtils.DisplayNameCanonical | src/lib/music-utils.ts:42-44 | a text reads back as note n if and only if it is exactly n's display name, so the octave is unpadded, as `${octave}` writes it |
| MusicUtils.VexFlowKeyCanonical | src/lib/music-utils.ts:165-174 | a text reads back as note n if and only if it is exactly n's VexFlow key, for either clef |
| MusicUtils.DisplayNameInjective | src/lib/music-utils.ts:42-44 | different notes have different display names |
| MusicUtils.VexFlowKeyExamples | src/lib/music-utils.ts:165-174 | C#4 is "c#/4", Bb3 in the bass clef is "bb/3", C4 is "c/4" |
| MusicUtils.DisplayNameExamples | src/lib/music-utils.ts:42-44 | the display names of C#4 and Eb5 are "C#4" and "Eb5" |
| Decimal.NatDecimalRoundTrip | src/lib/music-utils.ts:43 | the decimal digits of a natural number read back as that number |
| Decimal.IntDecimalRoundTrip | src/lib/music-utils.ts:173 | the decimal text of any integer octave, sign included, reads back as that integer |
| Decimal.ParseIntCanonical | src/lib/music-utils.ts:173 | every text the reader accepts is the decimal text of the integer it reads: no leading zeros and no `-0` |
| VirtualKeyboard.PatternSplits | src/components/practice/virtual-keyboard.tsx:30-47 | every pattern name splits into a valid letter and accidental. The split equals the sharp-table spelling of its position, and the black entries are exactly the sharps |
| VirtualKeyboard.Keyboard | src/components/practice/virtual-keyboard.tsx:45-59 | 12·(end-start+1) keys when start ≤ end, none otherwise |
| VirtualKeyboard.GenerateKeys | src/components/practice/virtual-keyboard.tsx:28-62 | the nested loops build exactly the layout `Keyboard(startOctave, endOctave)` |
| VirtualKeyboard.KeyboardAt | src/components/practice/virtual-keyboard.tsx:45-59 | key k is pattern entry k mod 12 of octave start + k div 12, so octaves ascend and each follows the C..B pattern |
| VirtualKeyboard.KeyboardKey | src/components/practice/virtual-keyboard.tsx:30-58 | key k has MIDI number (start+1)·12 + k and is the sharp-table spelling of that number. Its octave lies in the range, it is black exactly when it is sharp, and its label is the pattern name followed by the octave |
| VirtualKeyboard.KeyboardAscends | src/components/practice/virtual-keyboard.tsx:45-58 | MIDI numbers of keys i < j differ by exactly j - i |
| VirtualKeyboard.KeyboardInOrder | src/components/practice/virtual-keyboard.tsx:64-66 | the keys, the white keys and the black keys are each in strictly ascending MIDI order |
| VirtualKeyboard.WhiteKeys | src/components/practice/virtual-keyboard.tsx:65 | no black key survives the white filter, and it never lengthens the list |
| VirtualKeyboard.BlackKeys | src/components/practice/virtual-keyboard.tsx:66 | no white key survives the black filter, and it never lengthens the list |
| VirtualKeyboard.FilterMembers | src/components/practice/virtual-keyboard.tsx:65-66 | the white keys are exactly the non-black keys, the black keys exactly the black ones |
| VirtualKeyboard.FiltersKeepOrder | src/components/practice/virtual-keyboard.tsx:65-66 | filtering an ascending key list leaves both halves ascending |
| VirtualKeyboard.KeyboardColours | src/components/practice/virtual-keyboard.tsx:30-47 | every octave contributes 7 white and 5 black keys |
| VirtualKeyboard.IsSelected | src/components/practice/virtual-keyboard.tsx:68-75 | a key is selected exactly when the selection is present and is the key's note, compared letter, accidental and octave |
| VirtualKeyboard.SelectionFindsKey | src/components/practice/virtual-keyboard.tsx:68-75 | a selected note lights a key exactly when it is spelled as the sharp table spells it and lies in the displayed octaves. It then lights only the key at its MIDI offset |
| VirtualKeyboard.FlatSelectsNothing | src/components/practice/virtual-keyboard.tsx:68-75 | Db4 lights no key, because selection compares spelling; notesEqual still equates it with C#4 |

## Left out

- Math.random and crypto.randomUUID: every random value is an explicit input (`draw`, `draws`, `swaps`); identifiers are not modelled.
- MusicUtils.MultipleChoiceOptions: termination of the unbounded retry loop is not proved. The model consumes a finite list of draws, returns None exactly when they propose too few distinct in-range pitches, and states the remaining properties for the case where the loop ends.
- MusicUtils.Shuffle: only the permutation is modelled, not the order a comparator-driven sort would produce nor its statistical bias.
- The question builder, the score and accuracy counters (floating-point `Math.round`), timers and every React page and component outside `generateKeys`, its filters and `isSelected`: UI wiring with no engine logic.
- The staff renderer (src/components/music/sheet-music-renderer.tsx) is not part of this model; it hands the note to the VexFlow library, whose code is not available.
- The difficulty and site configuration files are data only; the beginner range appears as constants in `MusicUtils.BeginnerSamples`.
- Black-key placement in the rendered keyboard (the `findIndex` search at virtual-keyboard.tsx:106-122) is rendering and is not modelled.
