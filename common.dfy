/** Values shared by both detection strategies. */
module Common {

  /** Python's `None` or a value. */
  datatype Option<T> = None | Some(value: T)

  /** One event handed to the note sink: a key index and its direction. The pitch that the
      key index selects (the `NOTES` table) is configuration and is not modelled. */
  datatype NoteEvent = NoteOn(key: nat) | NoteOff(key: nat)
}
