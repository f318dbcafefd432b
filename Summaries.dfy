/**
  The items summary put into every new-order notification: the first three
  order lines as "{quantity}x {name}", joined with ", ", followed by
  " +N more" when N further lines were left out.
 */
module Summaries {
  import opened Wrappers
  import opened Text
  import opened Records

  /** How many lines the summary lists. */
  const ShownItems: nat := 3

  /** One line as "{quantity}x {name}". */
  function Label(item: Item): string {
    NatToString(item.quantity) + "x " + item.name
  }

  /** A label splits back into the quantity, in decimal, then "x " and the
      name. */
  lemma LabelReadsBack(item: Item)
    ensures var r := Label(item);
      var q := r[..|r| - |item.name| - 2];
      && |r| >= |item.name| + 3
      && r == q + "x " + item.name && IsDigits(q) && DigitsValue(q) == item.quantity
  {
    NatToStringRoundTrip(item.quantity);
    var r := Label(item);
    assert r[..|r| - |item.name| - 2] == NatToString(item.quantity);
  }

  /** The label of every line, in order. */
  function Labels(items: seq<Item>): (r: seq<string>)
    ensures |r| == |items|
    ensures forall k :: 0 <= k < |items| ==> r[k] == Label(items[k])
  {
    if items == [] then [] else [Label(items[0])] + Labels(items[1..])
  }

  /** `collect(items)->map(label)->take(n)`. */
  function Take(labels: seq<string>, n: nat): (r: seq<string>)
    ensures |r| == if |labels| < n then |labels| else n
    ensures r == labels[..|r|]
  {
    if |labels| <= n then labels else labels[..n]
  }

  /** The " +N more" tail, present only when lines were left out, with N the
      number of lines left out. */
  function MoreSuffix(count: nat): (r: string)
    ensures r == "" <==> count <= ShownItems
  {
    if count > ShownItems then " +" + NatToString(count - ShownItems) + " more" else ""
  }

  /** Beyond three lines, the tail splits back into " +", the number of
      lines left out in decimal, and " more". */
  lemma MoreSuffixReadsBack(count: nat)
    requires count > ShownItems
    ensures var r := MoreSuffix(count);
      var n := r[2..|r| - 5];
      && |r| >= 8
      && r == " +" + n + " more" && IsDigits(n) && DigitsValue(n) == count - ShownItems
  {
    NatToStringRoundTrip(count - ShownItems);
    var r := MoreSuffix(count);
    assert r[2..|r| - 5] == NatToString(count - ShownItems);
  }

  /** The summary as the notification builds it; it is empty exactly when
      there are no lines. */
  function ItemsSummary(items: seq<Item>): (r: string)
    ensures r == "" <==> items == []
  {
    Join(", ", Take(Labels(items), ShownItems)) + MoreSuffix(|items|)
  }

  /** Up to three lines, every line is listed and nothing is appended. */
  lemma {:induction false} SummaryOfFewItems(items: seq<Item>)
    requires |items| <= ShownItems
    ensures ItemsSummary(items) == Join(", ", Labels(items))
  {
  }

  /** Beyond three lines, only the first three are listed and the suffix
      carries the number of the others (`Text.NatToStringRoundTrip` reads it
      back exactly). */
  lemma SummaryOfManyItems(items: seq<Item>)
    requires |items| > ShownItems
    ensures ItemsSummary(items) == Join(", ", Labels(items[..ShownItems])) + (" +" + NatToString(|items| - ShownItems) + " more")
  {
    LabelsPrefix(items, ShownItems);
  }

  lemma LabelsPrefix(items: seq<Item>, n: nat)
    requires n <= |items|
    ensures Take(Labels(items), n) == Labels(items[..n])
  {
    var l := Labels(items);
    var p := Labels(items[..n]);
    var t := Take(l, n);
    assert |t| == n == |p|;
    forall k | 0 <= k < n ensures t[k] == p[k] {
      calc {
        t[k];
        l[k];
        Label(items[k]);
        { assert items[..n][k] == items[k]; }
        Label(items[..n][k]);
        p[k];
      }
    }
  }

  /** The summary depends on the first three lines and on the number of lines
      only. */
  lemma SummaryIgnoresHiddenItems(a: seq<Item>, b: seq<Item>)
    requires |a| == |b|
    requires |a| <= ShownItems ==> a == b
    requires |a| > ShownItems ==> a[..ShownItems] == b[..ShownItems]
    ensures ItemsSummary(a) == ItemsSummary(b)
  {
    if |a| > ShownItems {
      LabelsPrefix(a, ShownItems);
      LabelsPrefix(b, ShownItems);
    }
  }

  /** A non-empty order's summary starts with its first line's label. */
  lemma SummaryStartsWithFirstItem(items: seq<Item>)
    requires items != []
    ensures StartsWith(ItemsSummary(items), Label(items[0]))
  {
    var listed := Join(", ", Take(Labels(items), ShownItems));
    assert StartsWith(listed, Label(items[0]));
    assert (listed + MoreSuffix(|items|))[..|Label(items[0])|] == listed[..|Label(items[0])|];
  }

  /** No lines, empty summary. */
  lemma SummaryOfNoItems()
    ensures ItemsSummary([]) == ""
  {
  }

  /** The worked example: four lines give the first three and "+1 more". */
  lemma SummaryExample()
    ensures ItemsSummary(ExampleOrder()) == "2x Burger, 1x Fries, 3x Soda +1 more"
  {
    var listed := ["2x Burger", "1x Fries", "3x Soda"];
    ExampleLabels();
    ExampleJoin();
    assert MoreSuffix(4) == " +1 more" by {
      assert NatToString(1) == "1";
    }
    assert ItemsSummary(ExampleOrder()) == "2x Burger, 1x Fries, 3x Soda" + " +1 more";
  }

  /** Burger, Fries, Soda and Cake, with quantities 2, 1, 3 and 1. */
  function ExampleOrder(): seq<Item> {
    [ Item(1, "Burger", 2, 899, None),
      Item(2, "Fries", 1, 299, None),
      Item(3, "Soda", 3, 199, None),
      Item(4, "Cake", 1, 499, None) ]
  }

  lemma ExampleLabels()
    ensures Take(Labels(ExampleOrder()), ShownItems) == ["2x Burger", "1x Fries", "3x Soda"]
  {
    var items := ExampleOrder();
    assert NatToString(1) == "1" && NatToString(2) == "2" && NatToString(3) == "3";
    assert Label(items[0]) == "2x Burger";
    assert Label(items[1]) == "1x Fries";
    assert Label(items[2]) == "3x Soda";
    var labels := Labels(items);
    assert Take(labels, ShownItems) == [labels[0], labels[1], labels[2]];
  }

  lemma ExampleJoin()
    ensures Join(", ", ["2x Burger", "1x Fries", "3x Soda"]) == "2x Burger, 1x Fries, 3x Soda"
  {
    assert Join(", ", ["3x Soda"]) == "3x Soda";
    assert Join(", ", ["1x Fries", "3x Soda"]) == "1x Fries, 3x Soda";
  }
}
