/**
 * The note vocabulary of the trainer (src/types/music.ts): seven letters,
 * three accidentals, octaves 2..6 and the two clefs.
 */
module MusicTypes {

  /** The seven note letters, in the order C D E F G A B. */
  datatype NoteName = C | D | E | F | G | A | B

  /** "" (natural), "#" (sharp) and "b" (flat). */
  datatype Accidental = Natural | Sharp | Flat

  /** The octaves the program's Octave type declares: 2 to 6. */
  predicate IsOctave(o: int) {
    2 <= o <= 6
  }

  /**
   * A note as the program holds it at run time. The octave is a plain
   * integer: the engine casts computed octaves to the declared type without
   * a check, so decoded notes can carry octaves outside 2..6.
   */
  datatype Note = Note(name: NoteName, accidental: Accidental, octave: int)

  /** A note whose octave is one of the declared octaves. */
  type StaffNote = n: Note | IsOctave(n.octave) witness Note(C, Natural, 4)

  datatype Clef = Treble | Bass
}
