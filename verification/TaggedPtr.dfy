/**
 Pointers that carry a tag in their spare upper bits, and the list of the pointers that a
 lock-free list is linked by, top first.
 */
module TaggedPtr {

  /** A node's address with the tag of the operation that linked it. */
  datatype Ptr = Ptr(node: int, tag: int)

  /** Node 0 is the dummy at the bottom; its tag is 0, which no operation takes. */
  const DUMMY := Ptr(0, 0)

  ghost predicate Linked(links: seq<Ptr>, n: int) {
    exists k :: 0 <= k < |links| && links[k].node == n
  }

  ghost predicate TagLinked(links: seq<Ptr>, g: int) {
    exists k :: 0 <= k < |links| && links[k].tag == g
  }

  function Top(links: seq<Ptr>): Ptr {
    if links == [] then DUMMY else links[0]
  }

  function Below(links: seq<Ptr>, k: int): Ptr
    requires 0 <= k < |links|
  {
    if k + 1 < |links| then links[k + 1] else DUMMY
  }

  lemma BelowPushed(p: Ptr, links: seq<Ptr>)
    ensures var all := [p] + links;
            && Below(all, 0) == Top(links)
            && forall k :: 0 < k < |all| ==> all[k] == links[k - 1] && Below(all, k) == Below(links, k - 1)
  {
  }

  lemma BelowPopped(links: seq<Ptr>)
    requires links != []
    ensures var rest := links[1..];
            && Top(rest) == Below(links, 0)
            && forall k :: 0 <= k < |rest| ==> rest[k] == links[k + 1] && Below(rest, k) == Below(links, k + 1)
  {
  }
}
