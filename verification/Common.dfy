/** What several components use. */
module Common {

  datatype Option<T> = None | Some(value: T)

  const WRAP := 0x1_0000_0000

  type Uint32 = n: int | 0 <= n < WRAP
}
