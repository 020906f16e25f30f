/** The parsed HTML document as both scrapers see it, reduced to plain
    sequences in document order. The tree search of the HTML library is not
    modelled; each node instead records the names of its enclosing elements,
    which is all the scrapers' element removal (`decompose`) depends on. */
module Html {
  import opened Wrappers

  /** A `<meta>` element and the three attributes the scrapers look at;
      `None` is an absent attribute. */
  datatype Meta = Meta(name: Option<string>, property: Option<string>, content: Option<string>)

  /** An `<a>` element that has an `href` attribute. */
  datatype Anchor = Anchor(href: string, ancestors: set<string>)

  /** A text node of the document. */
  datatype TextNode = TextNode(text: string, ancestors: set<string>)

  /** `title` is `None` when there is no `<title>` element and `Some(s)` with
      `s` its `.string` (itself `None` when the title has no single string). */
  datatype Document = Document(
    title: Option<Option<string>>,
    metas: seq<Meta>,
    anchors: seq<Anchor>,
    texts: seq<TextNode>)

  /** The hrefs of the anchors that survive removing every element named in
      `removed`, in document order. */
  function SurvivingHrefs(anchors: seq<Anchor>, removed: set<string>): (r: seq<string>)
    ensures |r| <= |anchors|
    ensures forall h :: h in r ==> exists a :: a in anchors && a.href == h && a.ancestors !! removed
  {
    if anchors == [] then []
    else
      var rest := SurvivingHrefs(anchors[1..], removed);
      assert forall h :: h in rest ==> exists a :: a in anchors && a.href == h && a.ancestors !! removed by {
        forall h | h in rest ensures exists a :: a in anchors && a.href == h && a.ancestors !! removed {
          var a :| a in anchors[1..] && a.href == h && a.ancestors !! removed;
          assert a in anchors;
        }
      }
      if anchors[0].ancestors !! removed then [anchors[0].href] + rest else rest
  }

  /** The strings of the text nodes that survive the same removal. */
  function SurvivingTexts(nodes: seq<TextNode>, removed: set<string>): (r: seq<string>)
    ensures |r| <= |nodes|
    ensures forall t :: t in r ==> exists n :: n in nodes && n.text == t && n.ancestors !! removed
  {
    if nodes == [] then []
    else
      var rest := SurvivingTexts(nodes[1..], removed);
      assert forall t :: t in rest ==> exists n :: n in nodes && n.text == t && n.ancestors !! removed by {
        forall t | t in rest ensures exists n :: n in nodes && n.text == t && n.ancestors !! removed {
          var n :| n in nodes[1..] && n.text == t && n.ancestors !! removed;
          assert n in nodes;
        }
      }
      if nodes[0].ancestors !! removed then [nodes[0].text] + rest else rest
  }

  /** One anchor contributes its href exactly when no removed element
      encloses it. */
  lemma SurvivingHrefsSingle(a: Anchor, removed: set<string>)
    ensures SurvivingHrefs([a], removed) == if a.ancestors !! removed then [a.href] else []
  {
    assert [a][1..] == [];
  }

  /** The removal filters anchors one by one: the hrefs kept from `a` come
      before those kept from `b`, so document order and every surviving
      anchor are kept. */
  lemma {:induction false} SurvivingHrefsAppend(a: seq<Anchor>, b: seq<Anchor>, removed: set<string>)
    ensures SurvivingHrefs(a + b, removed) == SurvivingHrefs(a, removed) + SurvivingHrefs(b, removed)
  {
    if a == [] {
      assert a + b == b;
    } else {
      assert (a + b)[0] == a[0];
      assert (a + b)[1..] == a[1..] + b;
      SurvivingHrefsAppend(a[1..], b, removed);
    }
  }

  /** Every anchor outside all removed elements has its href kept. */
  lemma {:induction false} SurvivingHrefsKeeps(anchors: seq<Anchor>, removed: set<string>, a: Anchor)
    requires a in anchors && a.ancestors !! removed
    ensures a.href in SurvivingHrefs(anchors, removed)
  {
    if anchors[0] != a {
      assert a in anchors[1..];
      SurvivingHrefsKeeps(anchors[1..], removed, a);
    }
  }

  /** One text node contributes its string exactly when no removed element
      encloses it. */
  lemma SurvivingTextsSingle(n: TextNode, removed: set<string>)
    ensures SurvivingTexts([n], removed) == if n.ancestors !! removed then [n.text] else []
  {
    assert [n][1..] == [];
  }

  /** The same distribution over concatenation for text nodes. */
  lemma {:induction false} SurvivingTextsAppend(a: seq<TextNode>, b: seq<TextNode>, removed: set<string>)
    ensures SurvivingTexts(a + b, removed) == SurvivingTexts(a, removed) + SurvivingTexts(b, removed)
  {
    if a == [] {
      assert a + b == b;
    } else {
      assert (a + b)[0] == a[0];
      assert (a + b)[1..] == a[1..] + b;
      SurvivingTextsAppend(a[1..], b, removed);
    }
  }
}
