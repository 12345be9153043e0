/**
 * Attaching an import/export sub-panel to its parent panel in the file
 * browser's tool-properties region. The parent is the first panel whose id
 * matches the child's parent id, compared case-insensitively. The child is
 * linked into the parent's child list after the last child whose order is at
 * most its own, so children of equal order keep their registration order.
 */
module PanelParent {
  import opened Options

  /** ASCII lower-casing, the folding a C-locale case-insensitive compare applies. */
  function Lower(c: char): char
  {
    if 'A' <= c <= 'Z' then (c as int - 'A' as int + 'a' as int) as char else c
  }

  function LowerAll(s: string): (r: string)
    ensures |r| == |s| && forall i :: 0 <= i < |s| ==> r[i] == Lower(s[i])
  {
    seq(|s|, i requires 0 <= i < |s| => Lower(s[i]))
  }

  /** Case-insensitive equality: the same length and the same folded character at every position. */
  predicate CaseEq(a: string, b: string)
  {
    |a| == |b| && forall i :: 0 <= i < |a| ==> Lower(a[i]) == Lower(b[i])
  }

  /** Case-insensitive equality is equality after folding; hence it is an equivalence. */
  lemma CaseEqIsFoldedEq(a: string, b: string, c: string)
    ensures CaseEq(a, b) <==> LowerAll(a) == LowerAll(b)
    ensures CaseEq(a, a)
    ensures CaseEq(a, b) ==> CaseEq(b, a)
    ensures CaseEq(a, b) && CaseEq(b, c) ==> CaseEq(a, c)
  {
    if LowerAll(a) == LowerAll(b) {
      forall i | 0 <= i < |a| ensures Lower(a[i]) == Lower(b[i]) {
        assert LowerAll(a)[i] == LowerAll(b)[i];
      }
    }
  }

  /** An entry of a parent's child list: the child panel's id and order. */
  datatype Child = Child(idname: string, order: int)

  /** A registered panel type: its id, the id of the panel it nests under, its order, and its children. */
  datatype Panel = Panel(idname: string, parentId: string, order: int, children: seq<Child>)

  /** The first panel whose id matches `parentId`. */
  function FindParent(panels: seq<Panel>, parentId: string): (r: Option<nat>)
    ensures r.Some? ==> r.value < |panels| && CaseEq(panels[r.value].idname, parentId)
    ensures r.Some? ==> forall i :: 0 <= i < r.value ==> !CaseEq(panels[i].idname, parentId)
    ensures r.None? <==> forall i :: 0 <= i < |panels| ==> !CaseEq(panels[i].idname, parentId)
  {
    if |panels| == 0 then None
    else if CaseEq(panels[0].idname, parentId) then Some(0)
    else match FindParent(panels[1..], parentId)
      case None => None
      case Some(i) => Some(i + 1)
  }

  /**
   * Reference insertion point: just after the last child whose order is at
   * most `order`, or the front when there is none.
   */
  function InsertPos(children: seq<Child>, order: int): (pos: nat)
    ensures pos <= |children|
    ensures pos > 0 ==> children[pos - 1].order <= order
    ensures forall i :: pos <= i < |children| ==> children[i].order > order
  {
    if |children| == 0 then 0
    else if children[|children| - 1].order <= order then |children|
    else InsertPos(children[..|children| - 1], order)
  }

  predicate SortedByOrder(c: seq<Child>)
  {
    forall i, j :: 0 <= i < j < |c| ==> c[i].order <= c[j].order
  }

  function InsertAt(c: seq<Child>, pos: nat, x: Child): (r: seq<Child>)
    requires pos <= |c|
    ensures |r| == |c| + 1 && r[pos] == x
    ensures forall i :: 0 <= i < pos ==> r[i] == c[i]
    ensures forall i :: pos < i < |r| ==> r[i] == c[i - 1]
  {
    c[..pos] + [x] + c[pos..]
  }

  /** Inserting adds exactly the new child, and removing it gives the old list back. */
  lemma InsertAdds(c: seq<Child>, pos: nat, x: Child)
    requires pos <= |c|
    ensures var r := InsertAt(c, pos, x);
            && r[..pos] + r[pos + 1..] == c
            && multiset(r) == multiset(c) + multiset{x}
  {
    var r := InsertAt(c, pos, x);
    assert c == c[..pos] + c[pos..];
    assert r == c[..pos] + [x] + c[pos..];
  }

  /**
   * Inserting at the reference point keeps a sorted child list sorted and
   * puts the new child after every child of equal order.
   */
  lemma InsertKeepsOrder(c: seq<Child>, x: Child)
    requires SortedByOrder(c)
    ensures var pos := InsertPos(c, x.order);
            var r := InsertAt(c, pos, x);
            && SortedByOrder(r)
            && (forall i :: 0 <= i < |r| && r[i].order == x.order && i != pos ==> i < pos)
  {
    var pos := InsertPos(c, x.order);
    var r := InsertAt(c, pos, x);
    forall i, j | 0 <= i < j < |r| ensures r[i].order <= r[j].order {
      if j < pos {
        assert r[i] == c[i] && r[j] == c[j];
      } else if j == pos {
        assert r[i] == c[i] && c[i].order <= c[pos - 1].order;
      } else if i < pos {
        assert r[i] == c[i] && r[j] == c[j - 1];
      } else if i == pos {
        assert r[j] == c[j - 1];
      } else {
        assert r[i] == c[i - 1] && r[j] == c[j - 1];
      }
    }
    forall i | pos < i < |r| ensures r[i].order > x.order {
      assert r[i] == c[i - 1];
    }
  }

  /** Scans the panels front to back for the first whose id matches `parentId`. */
  method FindParentScan(panels: seq<Panel>, parentId: string) returns (parent: Option<nat>)
    ensures parent == FindParent(panels, parentId)
  {
    parent := None;
    var i := 0;
    while i < |panels|
      invariant 0 <= i <= |panels|
      invariant forall k :: 0 <= k < i ==> !CaseEq(panels[k].idname, parentId)
    {
      if CaseEq(panels[i].idname, parentId) {
        return Some(i);
      }
      i := i + 1;
    }
  }

  /** Walks the children back from the end past every child ordered after `order`. */
  method InsertPosScan(children: seq<Child>, order: int) returns (k: nat)
    ensures k == InsertPos(children, order)
  {
    k := |children|;
    while k > 0 && children[k - 1].order > order
      invariant 0 <= k <= |children|
      invariant InsertPos(children, order) == InsertPos(children[..k], order)
    {
      assert children[..k - 1] == children[..k][..k - 1];
      k := k - 1;
    }
    assert children[..k] == children[..k][..k];
  }

  /**
   * `r` is `panels` with `p` linked into the children of panel `k` at the
   * insertion point for its order, and every other panel left as it was.
   */
  predicate LinkedUnder(panels: seq<Panel>, r: seq<Panel>, k: nat, p: Panel)
  {
    && |r| == |panels|
    && k < |panels|
    && (forall i :: 0 <= i < |panels| && i != k ==> r[i] == panels[i])
    && var q := panels[k];
       r[k] == q.(children := InsertAt(q.children, InsertPos(q.children, p.order), Child(p.idname, p.order)))
  }

  /**
   * Sets the panel's parent. When a parent is found (`parent`), the panel is
   * linked into that parent's children at the reference point and the result
   * is true; all other panels are unchanged. Otherwise nothing changes and the
   * result is false.
   */
  method SetParent(panels: seq<Panel>, p: Panel) returns (ok: bool, r: seq<Panel>, parent: Option<nat>)
    ensures parent == FindParent(panels, p.parentId)
    ensures ok <==> parent.Some?
    ensures !ok ==> r == panels
    ensures ok ==> LinkedUnder(panels, r, parent.value, p)
  {
    parent := FindParentScan(panels, p.parentId);
    if parent.None? {
      ok, r := false, panels;
    } else {
      var q := panels[parent.value];
      var k := InsertPosScan(q.children, p.order);
      var q' := q.(children := InsertAt(q.children, k, Child(p.idname, p.order)));
      ok, r := true, panels[parent.value := q'];
    }
  }
}
