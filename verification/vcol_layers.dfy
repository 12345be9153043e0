/**
 * Selection of the colour layers a dynamic-topology node uploads: either just
 * the active layer, or every non-temporary layer in layer order, stopping at
 * the first corrupt layer index, with the render layer swapped into the last
 * slot.
 */
module VcolLayers {

  /**
   * The n-th colour layer of the vertex data: its index in the layer array
   * (negative when the array is corrupt), its data offset, and whether it is
   * a temporary copy of the original colours.
   */
  datatype ColorLayer = ColorLayer(index: int, offset: int, temporary: bool)

  /** One selected layer: its index in the layer array and its data offset. */
  datatype VcolEntry = VcolEntry(layer: int, offset: int)

  function EntryOf(l: ColorLayer): VcolEntry
  {
    VcolEntry(l.index, l.offset)
  }

  /** Reference selection: non-temporary layers in order, up to the first corrupt index. */
  function Collect(layers: seq<ColorLayer>): seq<VcolEntry>
  {
    if |layers| == 0 || layers[0].index < 0 then []
    else if layers[0].temporary then Collect(layers[1..])
    else [EntryOf(layers[0])] + Collect(layers[1..])
  }

  /** No layer up to and including `i` has a corrupt index. */
  predicate IntactThrough(layers: seq<ColorLayer>, i: nat)
  {
    forall j :: 0 <= j <= i && j < |layers| ==> layers[j].index >= 0
  }

  /**
   * The selection holds exactly the non-temporary layers before the first
   * corrupt one, never more entries than there are layers.
   */
  lemma {:induction false} CollectContents(layers: seq<ColorLayer>)
    ensures |Collect(layers)| <= |layers|
    ensures forall e :: e in Collect(layers) ==>
              exists i :: 0 <= i < |layers| && IntactThrough(layers, i) && !layers[i].temporary && e == EntryOf(layers[i])
    ensures forall i :: 0 <= i < |layers| && IntactThrough(layers, i) && !layers[i].temporary ==>
              EntryOf(layers[i]) in Collect(layers)
  {
    if |layers| > 0 && layers[0].index >= 0 {
      var rest := layers[1..];
      CollectContents(rest);
      forall e | e in Collect(layers)
        ensures exists i :: 0 <= i < |layers| && IntactThrough(layers, i) && !layers[i].temporary && e == EntryOf(layers[i])
      {
        if e in Collect(rest) {
          var i :| 0 <= i < |rest| && IntactThrough(rest, i) && !rest[i].temporary && e == EntryOf(rest[i]);
          assert layers[i + 1] == rest[i];
          assert IntactThrough(layers, i + 1) by {
            forall j | 0 <= j <= i + 1 && j < |layers| ensures layers[j].index >= 0 {
              if j > 0 { assert layers[j] == rest[j - 1]; }
            }
          }
        } else {
          assert e == EntryOf(layers[0]) && IntactThrough(layers, 0);
        }
      }
      forall i | 0 <= i < |layers| && IntactThrough(layers, i) && !layers[i].temporary
        ensures EntryOf(layers[i]) in Collect(layers)
      {
        if i > 0 {
          assert layers[i] == rest[i - 1];
          assert IntactThrough(rest, i - 1) by {
            forall j | 0 <= j <= i - 1 && j < |rest| ensures rest[j].index >= 0 {
              assert rest[j] == layers[j + 1];
            }
          }
        }
      }
    }
  }

  /** `c` with positions `i` and `j` exchanged. */
  function Swap<T>(c: seq<T>, i: nat, j: nat): (r: seq<T>)
    requires i < |c| && j < |c|
    ensures |r| == |c| && r[i] == c[j] && r[j] == c[i]
    ensures forall k :: 0 <= k < |c| && k != i && k != j ==> r[k] == c[k]
    ensures multiset(r) == multiset(c)
  {
    var r := c[i := c[j]][j := c[i]];
    assert multiset(c[i := c[j]]) == multiset(c) - multiset{c[i]} + multiset{c[j]};
    r
  }

  /**
   * The layers to upload. In active-only mode that is the active layer (index
   * `active` of `layers`) when any colour layer exists. Otherwise it is the
   * reference selection with the first entry that is the render layer swapped
   * with the last entry.
   */
  method MakeVcolOffs(layers: seq<ColorLayer>, activeOnly: bool, active: nat, render: int) returns (r: seq<VcolEntry>)
    requires activeOnly && |layers| > 0 ==> active < |layers|
    ensures activeOnly ==> r == (if |layers| > 0 then [EntryOf(layers[active])] else [])
    ensures !activeOnly ==>
              var c := Collect(layers);
              && multiset(r) == multiset(c)
              && ((forall k :: 0 <= k < |c| ==> c[k].layer != render) ==> r == c)
              && (forall i :: 0 <= i < |c| && c[i].layer == render && (forall k :: 0 <= k < i ==> c[k].layer != render) ==>
                    r == Swap(c, i, |c| - 1))
    ensures !activeOnly && (exists k :: 0 <= k < |r| && r[k].layer == render) ==> r[|r| - 1].layer == render
  {
    if activeOnly {
      if |layers| > 0 {
        return [EntryOf(layers[active])];
      }
      return [];
    }

    r := [];
    var i := 0;
    while i < |layers|
      invariant 0 <= i <= |layers|
      invariant r + Collect(layers[i..]) == Collect(layers)
      decreases |layers| - i
    {
      var l := layers[i];
      if l.index < 0 {
        break;
      }
      assert layers[i..][1..] == layers[i + 1..];
      if !l.temporary {
        r := r + [EntryOf(l)];
      }
      i := i + 1;
    }
    if i < |layers| {
      assert Collect(layers[i..]) == [];
    }
    assert r == Collect(layers);

    ghost var c := r;
    var k := 0;
    while k < |r|
      invariant 0 <= k <= |r| && r == c
      invariant forall k' :: 0 <= k' < k ==> c[k'].layer != render
    {
      if r[k].layer == render {
        r := Swap(r, k, |r| - 1);
        return;
      }
      k := k + 1;
    }
  }
}
