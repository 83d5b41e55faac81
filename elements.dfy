/**
 * The element tree a React component returns: nodes tagged by the
 * component that renders them, and text leaves.  Only the structure and the
 * text are kept; styles, event handlers and the DOM are not modelled.
 */
module Elements {

  datatype Element<T> = Node(tag: T, children: seq<Element<T>>) | Text(s: string)

  /** How many nodes of `e` carry the tag `t`. */
  function Count<T(==)>(e: Element<T>, t: T): nat
    decreases e, 1
  {
    match e
    case Text(_) => 0
    case Node(tag, children) => (if tag == t then 1 else 0) + CountIn(children, t)
  }

  /** How many nodes of the forest `es` carry the tag `t`. */
  function CountIn<T(==)>(es: seq<Element<T>>, t: T): nat
    decreases es, 0
  {
    if es == [] then 0 else Count(es[0], t) + CountIn(es[1..], t)
  }

  /** The text leaves of `e`, in document order. */
  function Texts<T>(e: Element<T>): seq<string>
    decreases e, 1
  {
    match e
    case Text(s) => [s]
    case Node(_, children) => TextsIn(children)
  }

  /** The text leaves of the forest `es`, in document order. */
  function TextsIn<T>(es: seq<Element<T>>): seq<string>
    decreases es, 0
  {
    if es == [] then [] else Texts(es[0]) + TextsIn(es[1..])
  }

  lemma {:induction false} CountInAppend<T>(a: seq<Element<T>>, b: seq<Element<T>>, t: T)
    ensures CountIn(a + b, t) == CountIn(a, t) + CountIn(b, t)
    decreases |a|
  {
    if a == [] {
      assert a + b == b;
    } else {
      assert (a + b)[1..] == a[1..] + b;
      CountInAppend(a[1..], b, t);
    }
  }

  lemma {:induction false} TextsInAppend<T>(a: seq<Element<T>>, b: seq<Element<T>>)
    ensures TextsIn(a + b) == TextsIn(a) + TextsIn(b)
    decreases |a|
  {
    if a == [] {
      assert a + b == b;
    } else {
      assert (a + b)[1..] == a[1..] + b;
      TextsInAppend(a[1..], b);
    }
  }

  /**
   * The children `{shown && <X/>}` contributes: React renders `false` as
   * nothing, so they hold the text and the nodes of `e` when `shown` and
   * nothing otherwise.
   */
  function When<T(==,!new)>(shown: bool, e: Element<T>): (r: seq<Element<T>>)
    ensures TextsIn(r) == (if shown then Texts(e) else [])
    ensures forall t :: CountIn(r, t) == (if shown then Count(e, t) else 0)
  {
    if shown then [e] else []
  }

  lemma SingleCount<T>(a: Element<T>, t: T)
    ensures CountIn([a], t) == Count(a, t)
  {
  }

  lemma PairCount<T>(a: Element<T>, b: Element<T>, t: T)
    ensures CountIn([a, b], t) == Count(a, t) + Count(b, t)
  {
    assert [a, b][1..] == [b];
    SingleCount(b, t);
  }

  /** A node whose only child is text counts just itself. */
  lemma LabelCount<T>(tag: T, s: string, t: T)
    ensures Count(Node(tag, [Text(s)]), t) == (if tag == t then 1 else 0)
  {
    SingleCount(Text(s), t);
  }

  lemma QuadCount<T>(a: Element<T>, b: Element<T>, c: Element<T>, d: Element<T>, rest: seq<Element<T>>, t: T)
    ensures CountIn([a, b, c, d] + rest, t)
      == Count(a, t) + Count(b, t) + Count(c, t) + Count(d, t) + CountIn(rest, t)
  {
    CountInAppend([a, b, c, d], rest, t);
    assert [a, b, c, d] == [a, b] + [c, d];
    CountInAppend([a, b], [c, d], t);
    PairCount(a, b, t);
    PairCount(c, d, t);
  }

  lemma SingleTexts<T>(a: Element<T>)
    ensures TextsIn([a]) == Texts(a)
  {
  }

  lemma PairTexts<T>(a: Element<T>, b: Element<T>)
    ensures TextsIn([a, b]) == Texts(a) + Texts(b)
  {
    assert [a, b][1..] == [b];
    SingleTexts(b);
  }

  /** A node whose only child is text shows just that text. */
  lemma LabelTexts<T>(tag: T, s: string)
    ensures Texts(Node(tag, [Text(s)])) == [s]
  {
    SingleTexts(Element<T>.Text(s));
  }

  lemma QuadTexts<T>(a: Element<T>, b: Element<T>, c: Element<T>, d: Element<T>, rest: seq<Element<T>>)
    ensures TextsIn([a, b, c, d] + rest) == Texts(a) + Texts(b) + Texts(c) + Texts(d) + TextsIn(rest)
  {
    TextsInAppend([a, b, c, d], rest);
    assert [a, b, c, d] == [a, b] + [c, d];
    TextsInAppend([a, b], [c, d]);
    PairTexts(a, b);
    PairTexts(c, d);
  }

  /** An element with one child that holds four elements and then `rest` counts along its parts. */
  lemma FrameCount<T>(outer: T, inner: T, a: Element<T>, b: Element<T>, c: Element<T>, d: Element<T>,
                      rest: seq<Element<T>>, t: T)
    ensures Count(Node(outer, [Node(inner, [a, b, c, d] + rest)]), t)
      == (if outer == t then 1 else 0) + (if inner == t then 1 else 0)
         + Count(a, t) + Count(b, t) + Count(c, t) + Count(d, t) + CountIn(rest, t)
  {
    SingleCount(Node(inner, [a, b, c, d] + rest), t);
    QuadCount(a, b, c, d, rest, t);
  }

  /** The texts of the same shape, along its parts. */
  lemma FrameTexts<T>(outer: T, inner: T, a: Element<T>, b: Element<T>, c: Element<T>, d: Element<T>,
                      rest: seq<Element<T>>)
    ensures Texts(Node(outer, [Node(inner, [a, b, c, d] + rest)]))
      == Texts(a) + Texts(b) + Texts(c) + Texts(d) + TextsIn(rest)
  {
    SingleTexts(Node(inner, [a, b, c, d] + rest));
    QuadTexts(a, b, c, d, rest);
  }

  /** A node holding only an empty node: two nodes and no text. */
  lemma NestedEmpty<T>(outer: T, inner: T, t: T)
    ensures Texts(Node(outer, [Node(inner, [])])) == []
    ensures Count(Node(outer, [Node(inner, [])]), t) == (if outer == t then 1 else 0) + (if inner == t then 1 else 0)
  {
    SingleTexts(Node(inner, []));
    SingleCount(Node(inner, []), t);
  }
}
