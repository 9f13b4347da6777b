/** What the pages of a listing say together. */
module Pages {
  function Concatenated<T>(pages: seq<seq<T>>): seq<T> {
    if pages == [] then [] else pages[0] + Concatenated(pages[1..])
  }

  lemma {:induction false} ConcatenatedMore<T>(pages: seq<seq<T>>, page: seq<T>)
    ensures Concatenated(pages + [page]) == Concatenated(pages) + page
  {
    if pages == [] {
      assert pages + [page] == [page] && [page][1..] == [];
      assert page + [] == page;
    } else {
      ConcatenatedMore(pages[1..], page);
      assert (pages + [page])[1..] == pages[1..] + [page];
    }
  }
}
