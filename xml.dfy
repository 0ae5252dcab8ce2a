/**
 * The element tree the feed writers build with `ElementTree.SubElement`,
 * and the generic item serializer of the Bing and Zbozi writers (the
 * `for key, value in variant.items()` loops): a list becomes one child per
 * entry, a dictionary one child with a grandchild per key, anything else
 * one child whose text is `str(value)`.
 */
module Xml {
  import opened Values
  import opened FeedItems

  /**
   * The text of an element: unset (`None`), a string, or an object that is
   * not a string (a list or a dictionary), which `ElementTree` accepts when
   * the tree is built and cannot write when it is non-empty.
   */
  datatype Content = NoText | Chars(s: string) | Object(truthy: bool)

  datatype Element = Element(tag: string, content: Content, children: seq<Element>)

  /** `tree.write` succeeds: no element's text is a non-empty non-string object. */
  predicate Writable(e: Element)
  {
    !(e.content.Object? && e.content.truthy)
    && forall i :: 0 <= i < |e.children| ==> Writable(e.children[i])
  }

  predicate AllWritable(es: seq<Element>)
  {
    forall i :: 0 <= i < |es| ==> Writable(es[i])
  }

  lemma AllWritableAppend(a: seq<Element>, b: seq<Element>)
    ensures AllWritable(a + b) <==> AllWritable(a) && AllWritable(b)
  {
    if AllWritable(a) && AllWritable(b) {
      forall i | 0 <= i < |a + b| ensures Writable((a + b)[i]) {
        if i >= |a| { assert (a + b)[i] == b[i - |a|]; }
      }
    }
    if AllWritable(a + b) {
      forall i | 0 <= i < |a| ensures Writable(a[i]) {
        assert (a + b)[i] == a[i];
      }
      forall i | 0 <= i < |b| ensures Writable(b[i]) {
        assert (a + b)[|a| + i] == b[i];
      }
    }
  }

  /** `.text = t` for an optional string. */
  function OfOption(t: Option<string>): Content
  {
    if t.Some? then Chars(t.value) else NoText
  }

  /** `.text = v` for a field value assigned as it is: a string, `None`, or a list or dictionary object. */
  function TextOf(v: Value): Content
  {
    match v
    case Scalar(s) => OfOption(s)
    case List(atoms) => Object(|atoms| > 0)
    case Group(fields) => Object(|fields| > 0)
  }

  /** `tree.write(...)`: the document when it can be serialised, `None` when writing raises. */
  function Written(doc: Option<Element>): (r: Option<Element>)
    ensures r.Some? <==> doc.Some? && Writable(doc.value)
    ensures r.Some? ==> r == doc
  {
    if doc.Some? && Writable(doc.value) then doc else None
  }

  /** How list entries become text: `str(v)` (package writers) or `v` itself (legacy scripts). */
  datatype Mode = ShowEntries | RawEntries

  function EntryContent(a: Atom, mode: Mode): Content
  {
    match mode
    case ShowEntries => Chars(ShowAtom(a))
    case RawEntries =>
      match a
      case Str(t) => OfOption(t)
      case Dict(pairs) => Object(|pairs| > 0)
  }

  function Leaf(tag: string, c: Content): Element
  {
    Element(tag, c, [])
  }

  /** The number of children one field produces. */
  function Width(v: Value): nat
  {
    match v
    case List(atoms) => |atoms|
    case _ => 1
  }

  /** The children one field `k: v` produces. */
  function FieldElements(k: string, v: Value, mode: Mode): (r: seq<Element>)
    ensures |r| == Width(v)
    ensures forall i :: 0 <= i < |r| ==> r[i].tag == k
  {
    match v
    case Scalar(s) => [Leaf(k, Chars(StrOf(s)))]
    case List(atoms) => seq(|atoms|, i requires 0 <= i < |atoms| => Leaf(k, EntryContent(atoms[i], mode)))
    case Group(fields) =>
      [Element(k, NoText, seq(|fields|, i requires 0 <= i < |fields| => Leaf(fields[i].0, Chars(fields[i].1))))]
  }

  /** The children of an item element: each field's children, in insertion order. */
  function ItemChildren(it: Item, mode: Mode): seq<Element>
  {
    if it == [] then []
    else
      var n := |it| - 1;
      ItemChildren(it[..n], mode) + FieldElements(it[n].0, it[n].1, mode)
  }

  function ItemElement(tag: string, it: Item, mode: Mode): Element
  {
    Element(tag, NoText, ItemChildren(it, mode))
  }

  /** The root element: a header, then one element per item. */
  function Feed(rootTag: string, header: seq<Element>, itemTag: string, items: seq<Item>, mode: Mode): Element
  {
    Element(rootTag, NoText, header + seq(|items|, i requires 0 <= i < |items| => ItemElement(itemTag, items[i], mode)))
  }

  /** How many children the first `j` fields produce. */
  function Offset(it: Item, j: nat): nat
    requires j <= |it|
  {
    if j == 0 then 0 else Offset(it, j - 1) + Width(it[j - 1].1)
  }

  lemma {:induction false} ItemChildrenLength(it: Item, mode: Mode)
    ensures |ItemChildren(it, mode)| == Offset(it, |it|)
  {
    if it != [] {
      var n := |it| - 1;
      ItemChildrenLength(it[..n], mode);
      OffsetPrefix(it, n, n);
    }
  }

  lemma {:induction false} OffsetPrefix(it: Item, n: nat, j: nat)
    requires j <= n <= |it|
    ensures Offset(it[..n], j) == Offset(it, j)
  {
    if j > 0 {
      OffsetPrefix(it, n, j - 1);
      assert it[..n][j - 1] == it[j - 1];
    }
  }

  lemma SliceAppendLeft<T>(a: seq<T>, b: seq<T>, lo: nat, hi: nat)
    requires lo <= hi <= |a|
    ensures (a + b)[lo..hi] == a[lo..hi]
  {
  }

  lemma ItemChildrenLast(it: Item, mode: Mode)
    requires it != []
    ensures var n := |it| - 1;
      ItemChildren(it, mode) == ItemChildren(it[..n], mode) + FieldElements(it[n].0, it[n].1, mode)
  {
  }

  /**
   * Field `j` of an item produces the children at offsets `Offset(it, j)`
   * onwards, in order: fields are written in insertion order, a list as
   * consecutive repeated children.
   */
  lemma {:induction false} FieldAt(it: Item, mode: Mode, j: nat)
    requires j < |it|
    ensures Offset(it, j) + Width(it[j].1) <= |ItemChildren(it, mode)|
    ensures ItemChildren(it, mode)[Offset(it, j)..Offset(it, j) + Width(it[j].1)] == FieldElements(it[j].0, it[j].1, mode)
  {
    var n := |it| - 1;
    if j == n {
      FieldAtLast(it, mode, j);
    } else {
      FieldAt(it[..n], mode, j);
      FieldAtFront(it, it[..n], mode, j);
    }
  }

  /** The last field's children close the item. */
  lemma FieldAtLast(it: Item, mode: Mode, j: nat)
    requires j == |it| - 1
    ensures Offset(it, j) + Width(it[j].1) <= |ItemChildren(it, mode)|
    ensures ItemChildren(it, mode)[Offset(it, j)..Offset(it, j) + Width(it[j].1)] == FieldElements(it[j].0, it[j].1, mode)
  {
    var n := |it| - 1;
    var a := ItemChildren(it[..n], mode);
    var b := FieldElements(it[n].0, it[n].1, mode);
    ItemChildrenLast(it, mode);
    LastFieldAt(a, b, it, mode);
  }

  /** An earlier field's children are where they were before the last field was added. */
  lemma FieldAtFront(it: Item, front: Item, mode: Mode, j: nat)
    requires j < |it| - 1 && front == it[..|it| - 1]
    requires Offset(front, j) + Width(front[j].1) <= |ItemChildren(front, mode)|
    requires ItemChildren(front, mode)[Offset(front, j)..Offset(front, j) + Width(front[j].1)]
      == FieldElements(front[j].0, front[j].1, mode)
    ensures Offset(it, j) + Width(it[j].1) <= |ItemChildren(it, mode)|
    ensures ItemChildren(it, mode)[Offset(it, j)..Offset(it, j) + Width(it[j].1)] == FieldElements(it[j].0, it[j].1, mode)
  {
    var n := |it| - 1;
    var a := ItemChildren(front, mode);
    var b := FieldElements(it[n].0, it[n].1, mode);
    ItemChildrenLast(it, mode);
    assert ItemChildren(it, mode) == a + b;
    OffsetPrefix(it, n, j);
    assert front[j] == it[j];
    var o, w := Offset(it, j), Width(it[j].1);
    assert o == Offset(front, j) && w == Width(front[j].1);
    assert a[o..o + w] == FieldElements(it[j].0, it[j].1, mode);
    SliceAppendLeft(a, b, o, o + w);
  }

  lemma LastFieldAt(a: seq<Element>, b: seq<Element>, it: Item, mode: Mode)
    requires it != [] && a == ItemChildren(it[..|it| - 1], mode)
    ensures Offset(it, |it| - 1) == |a| && (a + b)[|a|..|a| + |b|] == b
  {
    ItemChildrenLength(it[..|it| - 1], mode);
    OffsetPrefix(it, |it| - 1, |it| - 1);
  }

  lemma {:induction false} OffsetMonotone(it: Item, i: nat, j: nat)
    requires i <= j <= |it|
    ensures Offset(it, i) <= Offset(it, j)
    decreases j - i
  {
    if i < j {
      OffsetMonotone(it, i, j - 1);
    }
  }

  /** A scalar field becomes one child holding `str(value)`. */
  lemma ScalarField(it: Item, mode: Mode, j: nat)
    requires j < |it| && it[j].1.Scalar?
    ensures var c := ItemChildren(it, mode); var o := Offset(it, j);
      o < |c| && c[o] == Leaf(it[j].0, Chars(StrOf(it[j].1.s)))
  {
    FieldAt(it, mode, j);
    var o := Offset(it, j);
    assert ItemChildren(it, mode)[o..o + 1][0] == ItemChildren(it, mode)[o];
  }

  /** Every entry of a field's element list is writable unless it is a non-empty dictionary written raw. */
  predicate RawSafe(v: Value)
  {
    v.List? ==> forall i :: 0 <= i < |v.atoms| ==> !(v.atoms[i].Dict? && |v.atoms[i].pairs| > 0)
  }

  lemma FieldWritable(k: string, v: Value, mode: Mode)
    ensures AllWritable(FieldElements(k, v, mode)) <==> (mode == RawEntries ==> RawSafe(v))
  {
    var r := FieldElements(k, v, mode);
    if mode == RawEntries && v.List? && !RawSafe(v) {
      var i :| 0 <= i < |v.atoms| && v.atoms[i].Dict? && |v.atoms[i].pairs| > 0;
      assert !Writable(r[i]);
    }
    if v.Group? {
      assert forall i :: 0 <= i < |r[0].children| ==> Writable(r[0].children[i]);
    }
  }

  /**
   * An item element can be written exactly when no list entry is a
   * non-empty dictionary assigned raw; with `str()` on every entry it can
   * always be written.
   */
  lemma {:induction false} ItemWritable(tag: string, it: Item, mode: Mode)
    ensures Writable(ItemElement(tag, it, mode)) <==> (mode == RawEntries ==> AllRawSafe(it))
    decreases |it|
  {
    if it != [] {
      var n := |it| - 1;
      ItemWritable(tag, it[..n], mode);
      FieldWritable(it[n].0, it[n].1, mode);
      var a, b := ItemChildren(it[..n], mode), FieldElements(it[n].0, it[n].1, mode);
      ItemChildrenLast(it, mode);
      AllWritableAppend(a, b);
      assert Writable(ItemElement(tag, it, mode)) <==> AllWritable(a + b);
      assert Writable(ItemElement(tag, it[..n], mode)) <==> AllWritable(a);
      AllRawSafeSnoc(it);
    }
  }

  /** No field of the item holds a non-empty dictionary among its list entries. */
  predicate AllRawSafe(it: Item)
  {
    forall j :: 0 <= j < |it| ==> RawSafe(it[j].1)
  }

  lemma AllRawSafeSnoc(it: Item)
    requires it != []
    ensures AllRawSafe(it) <==> AllRawSafe(it[..|it| - 1]) && RawSafe(it[|it| - 1].1)
  {
    var n := |it| - 1;
    assert forall j :: 0 <= j < n ==> it[..n][j] == it[j];
  }

  // ---------------------------------------------------------- the writer

  /** The children of one field, built one `SubElement` at a time. */
  method SerializeField(key: string, value: Value, mode: Mode) returns (r: seq<Element>)
    ensures r == FieldElements(key, value, mode)
  {
    match value {
      case List(atoms) =>
        r := [];
        var m := 0;
        while m < |atoms|
          invariant 0 <= m <= |atoms|
          invariant r == seq(m, i requires 0 <= i < m => Leaf(key, EntryContent(atoms[i], mode)))
        {
          r := r + [Leaf(key, EntryContent(atoms[m], mode))];
          m := m + 1;
        }
      case Group(fields) =>
        var sub: seq<Element> := [];
        var m := 0;
        while m < |fields|
          invariant 0 <= m <= |fields|
          invariant sub == seq(m, i requires 0 <= i < m => Leaf(fields[i].0, Chars(fields[i].1)))
        {
          sub := sub + [Leaf(fields[m].0, Chars(fields[m].1))];
          m := m + 1;
        }
        r := [Element(key, NoText, sub)];
      case Scalar(s) =>
        r := [Leaf(key, Chars(StrOf(s)))];
    }
  }

  /** `for key, value in variant.items(): ...` under one new item element. */
  method SerializeItem(tag: string, it: Item, mode: Mode) returns (e: Element)
    ensures e == ItemElement(tag, it, mode)
  {
    var kids: seq<Element> := [];
    var j := 0;
    while j < |it|
      invariant 0 <= j <= |it|
      invariant kids == ItemChildren(it[..j], mode)
    {
      var fieldKids := SerializeField(it[j].0, it[j].1, mode);
      assert it[..j + 1][..j] == it[..j];
      ItemChildrenLast(it[..j + 1], mode);
      kids := kids + fieldKids;
      j := j + 1;
    }
    assert it[..|it|] == it;
    e := Element(tag, NoText, kids);
  }

  /** The writer: the root, its header elements, then one item element per item, in order. */
  method SerializeFeed(rootTag: string, header: seq<Element>, itemTag: string, items: seq<Item>, mode: Mode)
    returns (root: Element)
    ensures root == Feed(rootTag, header, itemTag, items, mode)
  {
    var kids := header;
    var i := 0;
    while i < |items|
      invariant 0 <= i <= |items|
      invariant kids == header + seq(i, k requires 0 <= k < i => ItemElement(itemTag, items[k], mode))
    {
      var e := SerializeItem(itemTag, items[i], mode);
      kids := kids + [e];
      i := i + 1;
    }
    root := Element(rootTag, NoText, kids);
  }

  /** The whole feed can be written exactly when each of its item elements can (the header holds strings). */
  lemma FeedWritable(rootTag: string, header: seq<Element>, itemTag: string, items: seq<Item>, mode: Mode)
    requires forall i :: 0 <= i < |header| ==> Writable(header[i])
    ensures Writable(Feed(rootTag, header, itemTag, items, mode))
      <==> forall i :: 0 <= i < |items| ==> Writable(ItemElement(itemTag, items[i], mode))
  {
    var f := Feed(rootTag, header, itemTag, items, mode);
    assert forall i :: 0 <= i < |items| ==> f.children[|header| + i] == ItemElement(itemTag, items[i], mode);
  }
}
