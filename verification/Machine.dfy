/** Values every other module uses: optional and fallible results, and 64-bit saturating arithmetic. */
module Machine {

  datatype Option<+T> = None | Some(value: T) {
    /** This value, or `other` when there is none. */
    function Or(other: Option<T>): Option<T> {
      if Some? then this else other
    }
  }

  datatype Result<+T, +E> = Ok(value: T) | Err(error: E)

  /** The largest `u64`, which is also the largest `usize` on the platforms Brolga builds for. */
  const U64_MAX: nat := 0xFFFF_FFFF_FFFF_FFFF

  type u64 = n: nat | n <= U64_MAX

  /** A count as a `u64`, or the largest one when it does not fit. */
  function Clamp(n: nat): u64 {
    if n > U64_MAX then U64_MAX else n
  }

  function SatAdd(a: nat, b: nat): u64 {
    Clamp(a + b)
  }

  function SatSub(a: u64, b: u64): u64 {
    if b > a then 0 else a - b
  }

  lemma {:induction false} Regroup<T>(a: seq<T>, b: seq<T>, c: seq<T>)
    ensures a + (b + c) == a + b + c
  {
  }

  /** The characters Unicode calls white space. */
  predicate IsSpace(c: char) {
    var n := c as int;
    9 <= n <= 13 || n == 32 || n == 0x85 || n == 0xA0 || n == 0x1680 || 0x2000 <= n <= 0x200A
    || n == 0x2028 || n == 0x2029 || n == 0x202F || n == 0x205F || n == 0x3000
  }
}
