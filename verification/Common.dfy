/** What the parts share. */
module Common {

  datatype Option<T> = None | Some(value: T)

  /** Machine words have 32 bits. */
  const WORD := 0x1_0000_0000

  /** One tick less of a time slice, in a word. */
  function TickDown(remaining: nat): (r: nat)
    ensures (r + 1) % WORD == remaining % WORD && (remaining < WORD ==> r < WORD)
  {
    if remaining == 0 then WORD - 1 else remaining - 1
  }

  /** What is left of a slice of `n` ticks after `k` of them. */
  function SliceAfter(n: nat, k: nat): nat {
    if k == 0 then n else TickDown(SliceAfter(n, k - 1))
  }

  /** A slice is used up by its last tick and by none before; one of no ticks lasts for a whole round of the word. */
  lemma {:induction false} SliceLasts(n: nat, k: nat)
    requires n < WORD && 0 < k <= if n == 0 then WORD else n
    ensures SliceAfter(n, k) == 0 <==> k == if n == 0 then WORD else n
    ensures SliceAfter(n, k) == (if n == 0 then WORD else n) - k
  {
    if k > 1 {
      SliceLasts(n, k - 1);
    } else {
      assert SliceAfter(n, 0) == n;
    }
  }

  function Min(a: int, b: int): (r: int)
    ensures r <= a && r <= b && (r == a || r == b)
  {
    if a < b then a else b
  }

  function Max(a: int, b: int): (r: int)
    ensures r >= a && r >= b && (r == a || r == b)
  {
    if a < b then b else a
  }

  const RT_ALIGN_SIZE: nat := 8

  /** RT_ALIGN on a 32-bit rt_size_t: it wraps when the sum does not fit. */
  function Rounded(size: nat): (r: nat)
    requires size < WORD
    ensures r % RT_ALIGN_SIZE == 0 && r < WORD
    ensures size + RT_ALIGN_SIZE - 1 < WORD ==> size <= r < size + RT_ALIGN_SIZE
  {
    var sum := (size + RT_ALIGN_SIZE - 1) % WORD;
    sum - sum % RT_ALIGN_SIZE
  }
}
