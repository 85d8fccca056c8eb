/** The list of lines inside the adjustment form: a heading with the line count, one row per
    line with a remove button, and a notice when there are no lines. */
module AdjustmentItemList {
  import Text
  import AdjustmentForm

  type FormItem = AdjustmentForm.FormItem

  /** The React key of a row: the product id and the quantity joined by `_`. */
  function RowKey(item: FormItem): string
  {
    Text.NatToString(item.product.id) + "_" + Text.IntToString(item.quantity)
  }

  predicate NoUnderscore(s: string)
  {
    forall i | 0 <= i < |s| :: s[i] != '_'
  }

  lemma IntToStringNoUnderscore(n: int)
    ensures NoUnderscore(Text.IntToString(n))
  {
    var s := Text.NatToString(if n < 0 then -n else n);
    assert NoUnderscore(s);
  }

  /** Splitting at the first `_` recovers both halves of a joined key. */
  lemma {:induction false} JoinInjective(a: string, x: string, b: string, y: string)
    requires NoUnderscore(a) && NoUnderscore(b)
    requires a + "_" + x == b + "_" + y
    ensures a == b && x == y
  {
    var l, r := a + "_" + x, b + "_" + y;
    assert l[|a|] == '_' && r[|b|] == '_';
    assert a == l[..|a|] && b == r[..|b|];
    assert x == l[|a| + 1..] && y == r[|b| + 1..];
  }

  /** Two rows get the same key exactly when they show the same product with the same
      quantity (so a repeated line repeats a key). */
  lemma RowKeyInjective(p: FormItem, q: FormItem)
    ensures RowKey(p) == RowKey(q) <==> p.product.id == q.product.id && p.quantity == q.quantity
  {
    if RowKey(p) == RowKey(q) {
      IntToStringNoUnderscore(p.product.id);
      IntToStringNoUnderscore(q.product.id);
      assert Text.NatToString(p.product.id) == Text.IntToString(p.product.id);
      assert Text.NatToString(q.product.id) == Text.IntToString(q.product.id);
      JoinInjective(Text.NatToString(p.product.id), Text.IntToString(p.quantity),
                    Text.NatToString(q.product.id), Text.IntToString(q.quantity));
      Text.NatToStringInjective(p.product.id, q.product.id);
      Text.IntToStringInjective(p.quantity, q.quantity);
    }
  }

  /** Row keys are unique exactly when no two lines agree in product and quantity. */
  lemma KeysUniqueIff(items: seq<FormItem>)
    ensures (forall i, j | 0 <= i < j < |items| :: RowKey(items[i]) != RowKey(items[j]))
        <==> (forall i, j | 0 <= i < j < |items| ::
                items[i].product.id != items[j].product.id || items[i].quantity != items[j].quantity)
  {
    forall i, j | 0 <= i < j < |items|
      ensures RowKey(items[i]) == RowKey(items[j])
          <==> items[i].product.id == items[j].product.id && items[i].quantity == items[j].quantity
    {
      RowKeyInjective(items[i], items[j]);
    }
  }

  /** One rendered row: its key, what it shows, and the position its remove button removes. */
  datatype Row = Row(key: string, name: string, unitType: string, quantity: int, removes: nat)

  datatype ListView = ListView(count: nat, rows: seq<Row>, emptyNotice: bool)

  function Render(items: seq<FormItem>): (v: ListView)
    ensures v.count == |v.rows| == |items|
    ensures v.emptyNotice <==> |v.rows| == 0
    ensures forall i | 0 <= i < |v.rows| ::
      && v.rows[i].removes == i
      && v.rows[i].quantity == items[i].quantity
      && v.rows[i].name == items[i].product.name
  {
    ListView(|items|,
      seq(|items|, i requires 0 <= i < |items| =>
        Row(RowKey(items[i]), items[i].product.name, items[i].product.unitType, items[i].quantity, i)),
      |items| == 0)
  }

  /** `removeValue(index)`: the line at that position goes, the others keep their order. */
  function RemoveAt(items: seq<FormItem>, index: nat): (r: seq<FormItem>)
    requires index < |items|
    ensures |r| == |items| - 1
    ensures forall i | 0 <= i < index :: r[i] == items[i]
    ensures forall i | index <= i < |r| :: r[i] == items[i + 1]
  {
    items[..index] + items[index + 1..]
  }

  /** Putting the removed line back where it was restores the list. */
  lemma RemoveAtInverse(items: seq<FormItem>, index: nat)
    requires index < |items|
    ensures var r := RemoveAt(items, index); r[..index] + [items[index]] + r[index..] == items
  {
    var r := RemoveAt(items, index);
    assert r[..index] == items[..index];
    assert r[index..] == items[index + 1..];
    assert items == items[..index] + [items[index]] + items[index + 1..];
  }

  /** Each row's remove button removes that row's line and nothing else. */
  lemma RowRemovesItsLine(items: seq<FormItem>, i: nat)
    requires i < |items|
    ensures var row := Render(items).rows[i];
      && row.removes < |items|
      && RowKey(items[row.removes]) == row.key
      && |RemoveAt(items, row.removes)| == |items| - 1
      && multiset(RemoveAt(items, row.removes)) + multiset{items[i]} == multiset(items)
  {
    assert items == items[..i] + [items[i]] + items[i + 1..];
  }
}
