/** The links of a page and the walk they make through a result. */
module Paging {
  import opened Wrappers

  datatype Links = Links(first: int, previous: Option<int>, next: Option<int>, last: int)

  /** The offsets in the links of the page at `offset`; a link that is left out is None. */
  function CollectionLinks(count: nat, limit: int, offset: int): Links {
    Links(offset,
          if offset > limit then Some(offset - limit) else None,
          if offset + limit < count then Some(offset + limit) else None,
          offset + limit)
  }

  /** `OFFSET offset LIMIT limit` of the ordered result. */
  function Page<T>(rows: seq<T>, limit: nat, offset: nat): seq<T> {
    if offset >= |rows| then []
    else if offset + limit >= |rows| then rows[offset..]
    else rows[offset..offset + limit]
  }

  /** The offsets visited by following next links from `offset`. */
  function Visited(count: nat, limit: int, offset: nat): seq<nat>
    requires limit >= 1
    decreases count - offset
  {
    match CollectionLinks(count, limit, offset).next
    case None => [offset]
    case Some(next) => [offset] + Visited(count, limit, next)
  }

  function PagesAt<T>(rows: seq<T>, limit: nat, offsets: seq<nat>): seq<T> {
    if offsets == [] then [] else Page(rows, limit, offsets[0]) + PagesAt(rows, limit, offsets[1..])
  }

  /** Following next links from an offset ends, and the pages on the way are the rows from there on, in
      order and each once. */
  lemma {:induction false} NextLinksWalkTheRest<T>(rows: seq<T>, limit: int, offset: nat)
    requires limit >= 1 && offset <= |rows|
    ensures PagesAt(rows, limit, Visited(|rows|, limit, offset)) == rows[offset..]
    decreases |rows| - offset
  {
    var offsets := Visited(|rows|, limit, offset);
    if offset + limit < |rows| {
      NextLinksWalkTheRest(rows, limit, offset + limit);
      assert offsets[1..] == Visited(|rows|, limit, offset + limit);
      assert rows[offset..] == rows[offset..offset + limit] + rows[offset + limit..];
    } else {
      assert offsets == [offset] && offsets[1..] == [];
      assert Page(rows, limit, offset) + [] == rows[offset..];
    }
  }

  /** From the start the walk is the whole result. */
  lemma NextLinksWalkTheResult<T>(rows: seq<T>, limit: int)
    requires limit >= 1
    ensures PagesAt(rows, limit, Visited(|rows|, limit, 0)) == rows
  {
    NextLinksWalkTheRest(rows, limit, 0);
  }

  /** The link named first is the page itself and the one named last the page after it, within the result or
      not; next and previous are those a limit further and before, next within the result only, and previous
      from beyond the second page only. */
  lemma LinksLeadTo(count: nat, limit: int, offset: int)
    ensures var links := CollectionLinks(count, limit, offset);
            && links.first == offset && links.last - links.first == limit
            && (links.next.Some? <==> links.last < count) && (links.next.Some? ==> links.next.value == links.last)
            && (links.previous.Some? <==> links.first - limit > 0)
            && (links.previous.Some? ==> links.previous.value + limit == links.first)
  {
  }

  /** The previous link leads back along a next link exactly from a positive offset: the second page of a
      walk from the start has none. */
  lemma PreviousUndoesNextIff(count: nat, limit: int, offset: nat)
    requires limit >= 1
    ensures match CollectionLinks(count, limit, offset).next
            case None => offset + limit >= count
            case Some(next) =>
              (CollectionLinks(count, limit, next).previous == Some(offset) <==> offset > 0)
  {
  }
}
