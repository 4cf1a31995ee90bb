/** The optional-value wrapper used for the nullable fields of the session
    (`File | undefined`, `string | null`, `OCRResult | null`). */
module Options {

  datatype Option<+T> = None | Some(value: T)
}
