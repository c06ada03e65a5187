/**
 * The note record that the sticky-notes widget keeps in memory and in its
 * local table (src/lib/db/index.ts:3-21), together with the small wrapper
 * datatypes the rest of the model uses.
 */
module NoteModel {

  /** An optional value; TypeScript's `id?: number` becomes `Option<int>`. */
  datatype Option<T> = None | Some(value: T)

  /** A value or an error message, for code paths that throw. */
  datatype Result<T, E> = Ok(value: T) | Err(error: E)

  /** The seven colour tags a note may carry (`NoteType`). */
  datatype NoteType = Amber | Green | Pink | Violet | Cyan | Zinc | Neutral

  /**
   * One note. The identifier is absent until the table has assigned one;
   * coordinates and sizes are pixels, modelled as unbounded integers.
   */
  datatype Note = Note(
    id: Option<int>,
    content: string,
    createdDate: string,
    color: NoteType,
    open: bool,
    x: int,
    y: int,
    width: int,
    height: int
  )
}
