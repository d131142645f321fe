/** The text of the `list` command: the header line and one row per shown item. */
module Listing {
  import opened Text

  /** The `output_template` of `list` filled in for `n` items:
      "You have N TODO(s) on your TODO list:" ("no" and "!" when `n` is 0). */
  function Header(n: nat): string {
    "You have " + (if n > 0 then IntToString(n) else "no") + " TODO" + (if n > 1 then "s" else "")
      + " on your TODO list" + (if n > 0 then ":" else "!")
  }

  /** One item: "You have 1 TODO on your TODO list:", singular. */
  lemma HeaderOfOne()
    ensures Header(1) == "You have 1 TODO on your TODO list:"
  {
    assert IntToString(1) == "1";
  }

  /** Where the count stands in the header: a numeral after "You have ", or "no". */
  lemma HeaderShape(n: nat)
    ensures var tail := " TODO" + (if n > 1 then "s" else "") + " on your TODO list" + (if n > 0 then ":" else "!");
            && (n > 0 ==> Header(n) == "You have " + NatToString(n) + tail && IsDigit(Header(n)[9]))
            && (n == 0 ==> Header(n)[9] == 'n')
  {
  }

  /** The header tells the count: different counts give different headers. */
  lemma HeaderTellsCount(a: nat, b: nat)
    requires Header(a) == Header(b)
    ensures a == b
  {
    HeaderShape(a);
    HeaderShape(b);
    if a > 0 && b > 0 {
      NumeralsAgree("You have ", a, " TODO" + (if a > 1 then "s" else "") + " on your TODO list" + ":",
                    b, " TODO" + (if b > 1 then "s" else "") + " on your TODO list" + ":");
    }
  }

  /** One listed item: " #<index>: <text>". */
  function Row(i: nat, item: string): string {
    " #" + IntToString(i) + ": " + item
  }

  /** A row tells both the index and the text of its item. */
  lemma RowTellsItem(i: nat, item: string, j: nat, other: string)
    requires Row(i, item) == Row(j, other)
    ensures i == j && item == other
  {
    assert Row(i, item) == " #" + NatToString(i) + (": " + item);
    assert Row(j, other) == " #" + NatToString(j) + (": " + other);
    NumeralsAgree(" #", i, ": " + item, j, ": " + other);
    var r := Row(i, item);
    var k := |r| - |item|;
    assert r[k..] == item;
    assert Row(j, other)[k..] == other;
  }

  /** The first item is listed as " #0: <text>". */
  lemma RowOfFirst(item: string)
    ensures Row(0, item) == " #0: " + item
  {
    assert IntToString(0) == "0";
  }

  /** An item is shown when the filter is empty or occurs in it. */
  predicate Matches(item: string, filter: string) {
    filter == "" || Contains(item, filter)
  }

  /** The rows the `enumerate` loop of `list` sends, item by item. */
  function Rows(items: seq<string>, filter: string): seq<string> {
    if items == [] then []
    else
      var i := |items| - 1;
      Rows(items[..i], filter) + (if Matches(items[i], filter) then [Row(i, items[i])] else [])
  }

  /** The indices of the items the filter lets through, in increasing order. */
  function Shown(items: seq<string>, filter: string): (idx: seq<nat>)
    ensures forall j :: 0 <= j < |idx| ==> idx[j] < |items| && Matches(items[idx[j]], filter)
    ensures forall j, k :: 0 <= j < k < |idx| ==> idx[j] < idx[k]
    ensures forall i :: 0 <= i < |items| && Matches(items[i], filter) ==> i in idx
  {
    if items == [] then []
    else
      var i := |items| - 1;
      var front := Shown(items[..i], filter);
      assert forall j :: 0 <= j < |front| ==> items[..i][front[j]] == items[front[j]];
      front + (if Matches(items[i], filter) then [i] else [])
  }

  /** `list` sends exactly one row per shown item, in order, each carrying the
      item's position in the whole list. */
  lemma {:induction false} RowsAreShown(items: seq<string>, filter: string)
    ensures var rows, idx := Rows(items, filter), Shown(items, filter);
            |rows| == |idx| && forall j :: 0 <= j < |rows| ==> rows[j] == Row(idx[j], items[idx[j]])
  {
    if items != [] {
      var i := |items| - 1;
      var front, frontRows := Shown(items[..i], filter), Rows(items[..i], filter);
      RowsAreShown(items[..i], filter);
      var tail, tailRows := if Matches(items[i], filter) then [i] else [],
                            if Matches(items[i], filter) then [Row(i, items[i])] else [];
      var rows, idx := Rows(items, filter), Shown(items, filter);
      assert idx == front + tail && rows == frontRows + tailRows;
      forall j | 0 <= j < |rows|
        ensures rows[j] == Row(idx[j], items[idx[j]])
      {
        if j < |front| {
          assert rows[j] == frontRows[j] && idx[j] == front[j];
          assert items[..i][front[j]] == items[front[j]];
        } else {
          assert rows[j] == Row(i, items[i]) && idx[j] == i;
        }
      }
    }
  }

  /** Without a filter every item is listed, row `i` showing item `i`. */
  lemma {:induction false} RowsUnfiltered(items: seq<string>)
    ensures |Rows(items, "")| == |items|
    ensures forall i :: 0 <= i < |items| ==> Rows(items, "")[i] == Row(i, items[i])
  {
    if items != [] {
      var i := |items| - 1;
      RowsUnfiltered(items[..i]);
    }
  }

  /** The loop of `list` over `enumerate(data)`: one row per matching item. */
  method ListRows(items: seq<string>, filter: string) returns (rows: seq<string>)
    ensures rows == Rows(items, filter)
  {
    rows := [];
    var i := 0;
    while i < |items|
      invariant 0 <= i <= |items|
      invariant rows == Rows(items[..i], filter)
    {
      assert items[..i + 1][..i] == items[..i];
      if filter == "" || Contains(items[i], filter) {
        rows := rows + [Row(i, items[i])];
      }
      i := i + 1;
    }
    assert items[..i] == items;
  }
}
