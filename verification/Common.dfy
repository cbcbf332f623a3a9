/** What several components share. */
module Common {

  datatype Option<T> = None | Some(value: T)

  type byte = b: int | 0 <= b < 256

  const UINT32 := 0x1_0000_0000
}
