/** The ways one normalisation run can abort. */
module NormaliseErrors {
  datatype NormaliseError =
    /** "Expected single key value pair to export" */
    | ShapeError
    /** "Duplicate export key '<key>'" */
    | DuplicateKey(key: string)
    /** A JavaScript TypeError from dereferencing `null` or `undefined`. */
    | TypeError
}
