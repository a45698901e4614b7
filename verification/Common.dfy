/** What several components share. */
module Common {

  datatype Option<T> = None | Some(value: T)

  type byte = b: int | 0 <= b < 0x100

  // IP protocol numbers.
  const ICMP_V4 := 1
  const TCP := 6
  const UDP := 17
  const ICMP_V6 := 58
}
