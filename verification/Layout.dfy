/** The page and tuple layout shared by heap and index pages. */
module Layout {
  import opened Entries

  const PAGE_SIZE: nat := 8192
  const PAGE_HEADER_SIZE: nat := 32
  const LINE_POINTER_SIZE: nat := 4
  /** Heap and B+Tree pages both end in a special area of this size. */
  const SPECIAL_SIZE: nat := 16
  /** `pd_special` of such a page. */
  const SPECIAL: nat := PAGE_SIZE - SPECIAL_SIZE
  const TUPLE_HEADER_SIZE: nat := 64

  function Max(a: nat, b: nat): nat {
    if a < b then b else a
  }

  function Zeros(n: nat): (s: seq<byte>)
    ensures |s| == n
  {
    seq(n, i => 0)
  }
}
