/** Types shared by every part of the buffer pool: identifiers, pages, and the
    byte-range helpers that partial reads and writes are described with. */
module Common {

  datatype Option<+T> = None | Some(value: T)

  type Byte = bv8
  type PageId = nat
  type FrameId = nat

  const PAGE_SIZE: nat := 4096

  /** The bytes of one page. */
  type Page = p: seq<Byte> | |p| == PAGE_SIZE witness seq(PAGE_SIZE, _ => 0)

  function ZeroPage(): Page { seq(PAGE_SIZE, _ => 0) }

  /** The first `k` bytes of two pages coincide. */
  ghost predicate Agrees(a: Page, b: Page, k: nat)
  {
    forall i :: 0 <= i < k && i < PAGE_SIZE ==> a[i] == b[i]
  }

  /** `d` after bytes `k .. k + n` have been copied into it from `m`. */
  function Splice(d: Page, m: Page, k: nat, n: nat): (r: Page)
    requires k + n <= PAGE_SIZE
    ensures forall i :: 0 <= i < PAGE_SIZE ==> r[i] == if k <= i < k + n then m[i] else d[i]
  {
    d[..k] + m[k..k + n] + d[k + n..]
  }

  lemma AgreesAll(a: Page, b: Page)
    requires Agrees(a, b, PAGE_SIZE)
    ensures a == b
  {
    assert forall i :: 0 <= i < |a| ==> a[i] == b[i];
  }
}
