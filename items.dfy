/** Items of the list and the change detector that decides, when a new item
    list arrives, whether the selection must go back to the first item. */
module Items {

  /** An entry of the list: `text` (the source's `label`) is what is shown, `value` identifies it. */
  datatype Item<V> = Item(text: string, value: V)

  /** The change detector: compares the two lists position by position. */
  function ShouldReset<V(==)>(prev: seq<Item<V>>, next: seq<Item<V>>): (r: bool)
    ensures |prev| != |next| ==> r
    ensures prev == next ==> !r
  {
    if |prev| != |next| then true
    else if prev == [] then false
    else prev[0].value != next[0].value || ShouldReset(prev[1..], next[1..])
  }

  /** The selection resets exactly when the length differs or some position
      holds a different value; labels are never looked at. */
  lemma {:induction false} ResetExactlyWhenValuesDiffer<V>(prev: seq<Item<V>>, next: seq<Item<V>>)
    ensures ShouldReset(prev, next) <==>
              |prev| != |next| || exists i :: 0 <= i < |prev| && prev[i].value != next[i].value
  {
    if |prev| == |next| && prev != [] {
      ResetExactlyWhenValuesDiffer(prev[1..], next[1..]);
      assert forall i :: 1 <= i < |prev| ==> prev[i] == prev[1..][i - 1] && next[i] == next[1..][i - 1];
      if ShouldReset(prev[1..], next[1..]) {
        var i :| 0 <= i < |prev[1..]| && prev[1..][i].value != next[1..][i].value;
        assert prev[i + 1].value != next[i + 1].value;
      }
    }
  }

  /** `items` with the labels replaced one by one, values kept. */
  function Relabel<V>(items: seq<Item<V>>, labels: seq<string>): (r: seq<Item<V>>)
    requires |labels| == |items|
    ensures |r| == |items|
    ensures forall i :: 0 <= i < |r| ==> r[i].text == labels[i] && r[i].value == items[i].value
  {
    seq(|items|, i requires 0 <= i < |items| => Item(labels[i], items[i].value))
  }

  /** Changing only the labels never resets the selection. */
  lemma RelabelKeepsSelection<V>(items: seq<Item<V>>, labels: seq<string>)
    requires |labels| == |items|
    ensures !ShouldReset(items, Relabel(items, labels))
  {
    ResetExactlyWhenValuesDiffer(items, Relabel(items, labels));
  }

  /** A list whose value at some position changed always resets the selection. */
  lemma ChangedValueResets<V>(prev: seq<Item<V>>, next: seq<Item<V>>, i: nat)
    requires i < |prev| && i < |next|
    requires prev[i].value != next[i].value
    ensures ShouldReset(prev, next)
  {
    ResetExactlyWhenValuesDiffer(prev, next);
  }
}
