/** Epoch bits, and the redirect counters they stand for. */
module EpochTags {
  /** One bit owned by execute, one by write-back. */
  datatype Tag = Tag(e: bool, w: bool)

  /** How often execute and write-back have redirected the pipe. */
  datatype Gen = Gen(e: nat, w: nat)

  function TagOf(g: Gen): Tag { Tag(g.e % 2 == 1, g.w % 2 == 1) }

  function Toggle(t: Tag, e: bool, w: bool): Tag { Tag(t.e != e, t.w != w) }

  function Advance(g: Gen, e: bool, w: bool): Gen {
    Gen(g.e + (if e then 1 else 0), g.w + (if w then 1 else 0))
  }

  predicate Near(g: nat, current: nat) { g == current || g + 1 == current }
}
