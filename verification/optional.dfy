/** The Some/None datatype used for every conversion that pandas may coerce to a
    missing value (`errors='coerce'`). */
module Optional {

  datatype Option<+T> = None | Some(value: T)

}
