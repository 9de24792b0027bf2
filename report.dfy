/** The HTML report written at the end of a run: nothing when the ledger is
    empty, otherwise a fixed head, one list item per ledger line in order,
    and a fixed tail. */
module Report {
  import opened Ast
  import opened Seqs

  const Head: string := "<html><head><title>Lombok Refactor Report</title></head><body>"
  const Title: string := "<h1>Lombok Refactor Report</h1>"
  const ListOpen: string := "<ul>"
  const ListClose: string := "</ul>"
  const Tail: string := "</body></html>"

  /** One ledger line as a list item. */
  function Item(e: string): (r: string)
    ensures |r| == |e| + 9
  {
    "<li>" + e + "</li>"
  }

  /** The list items of several ledger lines, in order. */
  function Items(es: seq<string>): string
    decreases |es|
  {
    if es == [] then "" else Items(es[..|es| - 1]) + Item(es[|es| - 1])
  }

  /** The report of a ledger, or nothing when the ledger is empty. */
  function Html(es: seq<string>): (r: Option<string>)
    ensures r.None? <==> es == []
  {
    if es == [] then None else Some(Head + Title + ListOpen + Items(es) + ListClose + Tail)
  }

  /** The items of two ledgers one after the other are the items of the
      first followed by those of the second. */
  lemma {:induction false} ItemsAppend(a: seq<string>, b: seq<string>)
    ensures Items(a + b) == Items(a) + Items(b)
    decreases |b|
  {
    if b == [] {
      assert a + b == a;
    } else {
      var b' := b[..|b| - 1];
      var x := b[|b| - 1];
      assert a + b == (a + b') + [x];
      assert (a + b)[..|a + b| - 1] == a + b';
      ItemsAppend(a, b');
      assert Items(b) == Items(b') + Item(x);
    }
  }

  /** One more ledger line adds its own list item at the end. */
  lemma ItemsSnoc(es: seq<string>, x: string)
    ensures Items(es + [x]) == Items(es) + Item(x)
  {
    assert (es + [x])[..|es|] == es;
  }

  /** Every ledger line appears in the report as its own list item, with the
      items of the lines before it in front and those after it behind. */
  lemma ItemsSplit(es: seq<string>, i: nat)
    requires i < |es|
    ensures Items(es) == Items(es[..i]) + Item(es[i]) + Items(es[i + 1..])
  {
    var front := es[..i + 1];
    SplitAt(es, i);
    ItemsSnoc(es[..i], es[i]);
    ItemsAppend(front, es[i + 1..]);
  }
}
