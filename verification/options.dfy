/** The optional value used wherever the source stores a possibly-null reference
    (the crop on a plot, the species of an enclosure, the crop of a decision). */
module Options {

  datatype Option<+T> = None | Some(value: T)
}
