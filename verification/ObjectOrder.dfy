/** The priority order of a line's objects: the selection scan and the exchange sort
    that both renderers and the penalty run, and why they yield `PriorityOrder`. */
module ObjectOrder {
  import opened Bytes
  import opened LineSpec

  /** A selected object: its OAM entry and where in OAM it was found. */
  datatype Sprite = Sprite(y: uint8, x: uint8, tile: uint8, attr: uint8, oam: OamIndex)

  function Entry(l: Line, i: OamIndex): (s: Sprite)
  {
    Sprite(l.oam[4 * i], l.ObjX(i), l.oam[4 * i + 2], l.ObjAttr(i), i)
  }

  function Entries(l: Line, objs: seq<OamIndex>): (s: seq<Sprite>)
    ensures |s| == |objs|
  {
    seq(|objs|, k requires 0 <= k < |objs| => Entry(l, objs[k]))
  }

  lemma EntryAt(l: Line, objs: seq<OamIndex>, k: nat)
    requires k < |objs|
    ensures Entries(l, objs)[k] == Entry(l, objs[k])
  {
  }

  predicate Before(p: Sprite, q: Sprite)
    ensures Before(p, q) <==> Rank(p) < Rank(q)
  {
    p.x < q.x || (p.x == q.x && p.oam < q.oam)
  }

  /** The same order as one number. */
  function Rank(p: Sprite): int { p.x * 40 + p.oam }

  ghost predicate InOrder(s: seq<Sprite>) {
    forall i, j :: 0 <= i < j < |s| ==> Rank(s[i]) <= Rank(s[j])
  }

  // ---- the scan and the sort ----

  /** The first ten objects on the line, in OAM order, at the front of the array. */
  method SelectObjects(l: Line) returns (sel: array<Sprite>, n: nat)
    ensures fresh(sel) && sel.Length == 10 && n <= 10
    ensures sel[..n] == Entries(l, l.Selected(|l.oam| / 4))
  {
    sel := new Sprite[10](_ => Sprite(0, 0, 0, 0, 0));
    n := 0;
    var i := 0;
    while i < 40 && n < 10
      invariant 0 <= i <= 40 && n == |l.Selected(i)|
      invariant sel[..n] == Entries(l, l.Selected(i))
    {
      if l.OnLine(i) {
        sel[n] := Sprite(l.oam[i * 4], l.oam[i * 4 + 1], l.oam[i * 4 + 2], l.oam[i * 4 + 3], i);
        n := n + 1;
      }
      i := i + 1;
    }
    SelectedIsFull(l, i);
  }

  lemma {:induction false} SelectedIsFull(l: Line, i: nat)
    requires i <= 40 && (i == 40 || |l.Selected(i)| == MAX_OBJECTS)
    ensures l.Selected(|l.oam| / 4) == l.Selected(i)
    decreases 40 - i
  {
    if i < 40 {
      SelectedIsFull(l, i + 1);
    }
  }

  method Exchange(a: array<Sprite>, i: nat, j: nat, n: nat)
    requires i < j < n <= a.Length
    modifies a
    ensures a[i] == old(a[j]) && a[j] == old(a[i])
    ensures forall q :: 0 <= q < a.Length && q != i && q != j ==> a[q] == old(a[q])
    ensures multiset(a[..n]) == old(multiset(a[..n]))
  {
    ghost var before := a[..n];
    a[i], a[j] := a[j], a[i];
    assert a[..n] == before[i := before[j]][j := before[i]];
  }

  /** Puts the smallest of a[i..n] at i by exchanging it with every smaller element met. */
  method SmallestToFront(a: array<Sprite>, i: nat, n: nat, ghost least: int)
    requires i < n <= a.Length
    requires forall q :: i <= q < n ==> least <= Rank(a[q])
    modifies a
    ensures multiset(a[..n]) == old(multiset(a[..n]))
    ensures forall q :: 0 <= q < i ==> a[q] == old(a[q])
    ensures forall q :: i <= q < n ==> least <= Rank(a[i]) <= Rank(a[q])
  {
    var j := i + 1;
    while j < n
      invariant i < j <= n
      invariant multiset(a[..n]) == old(multiset(a[..n]))
      invariant forall q :: 0 <= q < i ==> a[q] == old(a[q])
      invariant forall q :: i <= q < n ==> least <= Rank(a[q])
      invariant forall q :: i <= q < j ==> Rank(a[i]) <= Rank(a[q])
    {
      if Before(a[j], a[i]) {
        Exchange(a, i, j, n);
      }
      j := j + 1;
    }
  }

  method SortByPriority(a: array<Sprite>, n: nat)
    requires n <= a.Length
    modifies a
    ensures multiset(a[..n]) == old(multiset(a[..n]))
    ensures InOrder(a[..n])
  {
    var i := 0;
    while i < n - 1
      invariant 0 <= i <= n
      invariant multiset(a[..n]) == old(multiset(a[..n]))
      invariant forall p, q :: 0 <= p < i && p < q < n ==> Rank(a[p]) <= Rank(a[q])
    {
      SmallestToFront(a, i, n, if i > 0 then Rank(a[i - 1]) else 0);
      i := i + 1;
    }
  }

  // ---- what the sort must produce ----

  ghost predicate DistinctOam(s: seq<Sprite>) {
    forall i, j :: 0 <= i < |s| && 0 <= j < |s| && s[i].oam == s[j].oam ==> s[i] == s[j]
  }

  /** Two arrangements of the same objects that are both in order are equal, so the
      result does not depend on how the sort goes about it. */
  lemma {:induction false} InOrderIsUnique(s: seq<Sprite>, t: seq<Sprite>)
    requires InOrder(s) && InOrder(t) && DistinctOam(s)
    requires multiset(s) == multiset(t)
    ensures s == t
  {
    if s == [] {
      assert |multiset(t)| == 0;
    } else {
      assert |t| == |multiset(t)| == |s|;
      var i := IndexIn(t[0], s, t);
      var j := IndexIn(s[0], t, s);
      FrontsAgree(s, t, i, j);
      RestMultiset(s);
      RestMultiset(t);
      InOrderIsUnique(s[1..], t[1..]);
      assert s == [s[0]] + s[1..] && t == [t[0]] + t[1..];
    }
  }

  lemma RestMultiset(s: seq<Sprite>)
    requires s != []
    ensures multiset(s[1..]) == multiset(s) - multiset{s[0]}
  {
    assert s == [s[0]] + s[1..];
  }

  lemma IndexIn(e: Sprite, s: seq<Sprite>, t: seq<Sprite>) returns (i: nat)
    requires multiset(s) == multiset(t) && e in t
    ensures i < |s| && s[i] == e
  {
    assert e in multiset(t);
    assert e in s;
    i :| 0 <= i < |s| && s[i] == e;
  }

  lemma FrontsAgree(s: seq<Sprite>, t: seq<Sprite>, i: nat, j: nat)
    requires InOrder(s) && InOrder(t) && DistinctOam(s)
    requires s != [] && t != []
    requires i < |s| && s[i] == t[0]
    requires j < |t| && t[j] == s[0]
    ensures s[0] == t[0]
  {
    assert Rank(s[0]) <= Rank(s[i]) && Rank(t[0]) <= Rank(t[j]);
    assert s[0].oam == s[i].oam;
  }

  lemma PrependMultiset(i: OamIndex, s: seq<OamIndex>)
    ensures multiset([i] + s) == multiset{i} + multiset(s)
  {
  }

  lemma {:induction false} InsertPermutes(l: Line, i: OamIndex, s: seq<OamIndex>)
    ensures multiset(l.Insert(i, s)) == multiset(s) + multiset{i}
  {
    if s == [] || l.Beats(i, s[0]) {
      assert multiset([i] + s) == multiset([i]) + multiset(s);
    } else {
      InsertPermutes(l, i, s[1..]);
      PrependMultiset(s[0], s[1..]);
      PrependMultiset(s[0], l.Insert(i, s[1..]));
      assert s == [s[0]] + s[1..];
    }
  }

  lemma {:induction false} ArrangedPermutes(l: Line, s: seq<OamIndex>)
    ensures multiset(l.Arranged(s)) == multiset(s)
  {
    if s != [] {
      var front, last := s[..|s| - 1], s[|s| - 1];
      ArrangedPermutes(l, front);
      InsertPermutes(l, last, l.Arranged(front));
      assert s == front + [last];
    }
  }

  ghost predicate Ranked(l: Line, s: seq<OamIndex>)
  {
    forall i, j :: 0 <= i < j < |s| ==> Rank(Entry(l, s[i])) <= Rank(Entry(l, s[j]))
  }

  lemma PrependKeepsRank(l: Line, i: OamIndex, s: seq<OamIndex>)
    requires Ranked(l, s) && forall k :: 0 <= k < |s| ==> Rank(Entry(l, i)) <= Rank(Entry(l, s[k]))
    ensures Ranked(l, [i] + s)
  {
  }

  lemma {:induction false} InsertKeepsRank(l: Line, i: OamIndex, s: seq<OamIndex>)
    requires Ranked(l, s)
    ensures Ranked(l, l.Insert(i, s))
  {
    if s == [] || l.Beats(i, s[0]) {
      forall k | 0 <= k < |s| ensures Rank(Entry(l, i)) <= Rank(Entry(l, s[k])) {
        assert Rank(Entry(l, s[0])) <= Rank(Entry(l, s[k]));
      }
      PrependKeepsRank(l, i, s);
    } else {
      InsertKeepsRank(l, i, s[1..]);
      var r := l.Insert(i, s[1..]);
      forall k | 0 <= k < |r| ensures Rank(Entry(l, s[0])) <= Rank(Entry(l, r[k])) {
        InsertedElement(l, i, s[1..], k);
      }
      PrependKeepsRank(l, s[0], r);
    }
  }

  lemma InsertedElement(l: Line, i: OamIndex, s: seq<OamIndex>, k: nat)
    requires k <= |s|
    ensures l.Insert(i, s)[k] == i || l.Insert(i, s)[k] in s
  {
    var r := l.Insert(i, s);
    InsertPermutes(l, i, s);
    assert r[k] in multiset(r);
  }

  lemma {:induction false} ArrangedIsRanked(l: Line, s: seq<OamIndex>)
    ensures Ranked(l, l.Arranged(s))
  {
    if s != [] {
      ArrangedIsRanked(l, s[..|s| - 1]);
      InsertKeepsRank(l, s[|s| - 1], l.Arranged(s[..|s| - 1]));
    }
  }

  lemma EntriesOfPrepend(l: Line, i: OamIndex, s: seq<OamIndex>)
    ensures Entries(l, [i] + s) == [Entry(l, i)] + Entries(l, s)
  {
  }

  lemma {:induction false} EntriesOfInsert(l: Line, i: OamIndex, s: seq<OamIndex>)
    ensures multiset(Entries(l, l.Insert(i, s))) == multiset(Entries(l, s)) + multiset{Entry(l, i)}
  {
    if s == [] {
      assert Entries(l, [i]) == [Entry(l, i)];
    } else if l.Beats(i, s[0]) {
      EntriesOfPrepend(l, i, s);
    } else {
      EntriesOfInsert(l, i, s[1..]);
      EntriesOfPrepend(l, s[0], l.Insert(i, s[1..]));
      EntriesOfPrepend(l, s[0], s[1..]);
      assert s == [s[0]] + s[1..];
    }
  }

  lemma EntriesOfAppend(l: Line, s: seq<OamIndex>, i: OamIndex)
    ensures Entries(l, s + [i]) == Entries(l, s) + [Entry(l, i)]
  {
  }

  lemma {:induction false} EntriesOfArranged(l: Line, s: seq<OamIndex>)
    ensures multiset(Entries(l, l.Arranged(s))) == multiset(Entries(l, s))
  {
    if s != [] {
      var front, last := s[..|s| - 1], s[|s| - 1];
      assert s == front + [last];
      assert l.Arranged(s) == l.Insert(last, l.Arranged(front));
      EntriesOfAppend(l, front, last);
      EntriesOfArranged(l, front);
      EntriesOfInsert(l, last, l.Arranged(front));
    }
  }

  lemma RankedEntries(l: Line, s: seq<OamIndex>)
    requires Ranked(l, s)
    ensures InOrder(Entries(l, s)) && DistinctOam(Entries(l, s))
  {
  }

  /** However it is reached, an arrangement of the selected objects in (X, OAM index)
      order is the priority order. */
  lemma SortedIsPriorityOrder(l: Line, sorted: seq<Sprite>)
    requires InOrder(sorted)
    requires multiset(sorted) == multiset(Entries(l, l.Selected(|l.oam| / 4)))
    ensures sorted == Entries(l, l.Arranged(l.Selected(|l.oam| / 4)))
  {
    var sel := l.Selected(|l.oam| / 4);
    var order := l.Arranged(sel);
    ArrangedIsRanked(l, sel);
    EntriesOfArranged(l, sel);
    RankedEntries(l, order);
    InOrderIsUnique(Entries(l, order), sorted);
  }

  lemma ArrangedElement(l: Line, s: seq<OamIndex>, k: nat)
    requires k < |s|
    ensures l.Arranged(s)[k] in s
  {
    var r := l.Arranged(s);
    ArrangedPermutes(l, s);
    assert r[k] in multiset(r);
  }

  lemma OrderIsOnLine(l: Line, k: nat)
    requires k < |l.PriorityOrder()|
    ensures l.OnLine(l.PriorityOrder()[k])
  {
    ArrangedElement(l, l.Selected(|l.oam| / 4), k);
    SelectedOnLine(l, |l.oam| / 4);
  }

  lemma {:induction false} SelectedOnLine(l: Line, n: nat)
    requires 4 * n <= |l.oam|
    ensures forall i :: i in l.Selected(n) ==> l.OnLine(i)
  {
    if n > 0 {
      SelectedOnLine(l, n - 1);
    }
  }

  /** The two bytes of the object's row on this line. */
  method RowBytes(l: Line, e: Sprite) returns (lo: uint8, hi: uint8)
    requires e == Entry(l, e.oam) && l.OnLine(e.oam)
    ensures lo == l.vram[l.ObjRowOffset(e.oam)] && hi == l.vram[l.ObjRowOffset(e.oam) + 1]
  {
    var height := l.ObjectHeight();
    var row := l.y - (e.y - 16);
    if e.attr / 0x40 % 2 == 1 {
      row := height - 1 - row;
    }
    var tile := e.tile;
    if height == 16 {
      tile := tile - tile % 2;
      if row >= 8 {
        tile := tile + 1;
        row := row - 8;
      }
    }
    var ta := tile * 16 + row * 2;
    lo, hi := l.vram[ta], l.vram[ta + 1];
  }

  /** The line's objects in priority order. */
  method SortedObjects(l: Line) returns (sel: array<Sprite>, n: nat)
    ensures fresh(sel) && sel.Length == 10 && n <= 10
    ensures sel[..n] == Entries(l, l.PriorityOrder())
  {
    if l.ObjectsOn() {
      sel, n := SelectObjects(l);
      SortByPriority(sel, n);
      SortedIsPriorityOrder(l, sel[..n]);
    } else {
      sel, n := new Sprite[10](_ => Sprite(0, 0, 0, 0, 0)), 0;
    }
  }
}
