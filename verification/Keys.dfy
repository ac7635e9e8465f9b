/** Key chords, as far as the engine looks at them. */
module Keys {

  /** A chord is told apart by its canonical specification, such as `cmd+shift+k`. */
  datatype Chord = Chord(spec: string)

  /** The identifier a chord is registered under. */
  function Ident(chord: Chord): string {
    chord.spec
  }
}
