/** Small shared vocabulary: an optional value (the model of a C pointer that
    may be NULL) and NUL-free strings (the model of a C string). */
module Base {

  /** `None` stands for a NULL pointer, `Some(v)` for a pointer to `v`. */
  datatype Option<+T> = None | Some(value: T)

  /** A C string: its characters up to, and not including, the terminating NUL. */
  type CString = s: string | '\0' !in s witness ""
}
