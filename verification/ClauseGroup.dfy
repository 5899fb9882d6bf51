/** The clause group around one structure node: the least pair of node sets that is closed under
    the subtree, ancestor and link rules, computed by a worklist. */
module ClauseGroup {
  import opened Evidence

  datatype NodeType =
    | Root | MajorSectionNode | Item | Paragraph | ListItem | Table | TableRow | Footnote | Boilerplate | UnclassifiedNode

  datatype LinkType = ContinuationOf | FootnoteOf | AppliesTo | Previous | NextSibling

  datatype Link = Link(from: string, to: string, kind: LinkType)

  datatype MajorClass = Benefit | Notice | Mixed | Unknown

  datatype StructureNode = StructureNode(
    id: string, parent: Option<string>, kind: NodeType, major: MajorClass, ordinal: nat, text: string, links: seq<Link>)

  type Tree = map<string, StructureNode>

  ghost predicate UniqueIds(nodes: seq<StructureNode>) {
    forall i, j :: 0 <= i < j < |nodes| ==> nodes[i].id != nodes[j].id
  }

  /** `t` indexes `nodes` by id. */
  ghost predicate Indexes(t: Tree, nodes: seq<StructureNode>) {
    && (forall i :: 0 <= i < |nodes| ==> nodes[i].id in t && t[nodes[i].id] == nodes[i])
    && (forall id :: id in t ==> t[id].id == id && t[id] in nodes)
  }

  /** A rank that falls from child to parent: the parent relation has no cycle. */
  ghost predicate Ranks(t: Tree, rank: map<string, nat>) {
    && t.Keys <= rank.Keys
    && forall id :: id in t && HasParent(t, id) ==> rank[t[id].parent.value] < rank[id]
  }

  predicate HasParent(t: Tree, id: string)
    requires id in t
  {
    t[id].parent.Some? && t[id].parent.value in t
  }

  ghost predicate Forest(t: Tree) {
    exists rank: map<string, nat> :: Ranks(t, rank)
  }

  // ---- the rules ----------------------------------------------------------------------------------------

  /** The nearest node of a kind, from `current` upwards; `visited` only bounds the recursion. */
  ghost function NearestFrom(t: Tree, current: Option<string>, kind: NodeType, visited: set<string>): Option<string>
    decreases |t.Keys - visited|
  {
    if current.None? || current.value !in t || current.value in visited then None
    else if t[current.value].kind == kind then current
    else
      assert t.Keys - (visited + {current.value}) == (t.Keys - visited) - {current.value};
      NearestFrom(t, t[current.value].parent, kind, visited + {current.value})
  }

  /** The node whose whole subtree accompanies `id`: its item, else its table, else itself. */
  ghost function Anchor(t: Tree, id: string): string {
    var item := NearestFrom(t, Some(id), Item, {});
    var table := NearestFrom(t, Some(id), Table, {});
    if item.Some? then item.value else if table.Some? then table.value else id
  }

  ghost predicate ParentClosed(t: Tree, selected: set<string>) {
    forall id :: id in selected && id in t && HasParent(t, id) ==> t[id].parent.value in selected
  }

  ghost predicate ChildClosed(t: Tree, substantive: set<string>) {
    forall id :: id in t && HasParent(t, id) && t[id].parent.value in substantive ==> id in substantive
  }

  /** Structural rules: headings above every selected node, whole subtrees below substantive ones. */
  ghost predicate Shaped(t: Tree, selected: set<string>, substantive: set<string>) {
    substantive <= selected && ParentClosed(t, selected) && ChildClosed(t, substantive)
  }

  ghost predicate Includes(t: Tree, id: string, selected: set<string>, substantive: set<string>) {
    id in t ==> id in selected && Anchor(t, id) in substantive
  }

  predicate Binds(kind: LinkType) { kind == FootnoteOf || kind == ContinuationOf }

  /** A condition follows its selected target; footnotes and continuations follow both ways. */
  ghost predicate LinkRule(t: Tree, link: Link, selected: set<string>, substantive: set<string>) {
    && (link.kind == AppliesTo && link.to in selected ==> Includes(t, link.from, selected, substantive))
    && (Binds(link.kind) && (link.from in substantive || link.to in substantive) ==>
        Includes(t, link.from, selected, substantive) && Includes(t, link.to, selected, substantive))
  }

  ghost predicate Closed(t: Tree, links: set<Link>, seed: string, selected: set<string>, substantive: set<string>) {
    && Shaped(t, selected, substantive)
    && Includes(t, seed, selected, substantive)
    && forall link :: link in links ==> LinkRule(t, link, selected, substantive)
  }

  /** Contained in every closed pair. */
  ghost predicate Below(t: Tree, links: set<Link>, seed: string, selected: set<string>, substantive: set<string>) {
    forall s, u :: Closed(t, links, seed, s, u) ==> selected <= s && substantive <= u
  }

  /** The clause group: the least closed pair. */
  ghost predicate Group(t: Tree, links: set<Link>, seed: string, selected: set<string>, substantive: set<string>) {
    Closed(t, links, seed, selected, substantive) && Below(t, links, seed, selected, substantive)
  }

  /** There is only one clause group, whatever order computed it. */
  lemma GroupUnique(t: Tree, links: set<Link>, seed: string, s: set<string>, u: set<string>, s': set<string>, u': set<string>)
    requires Group(t, links, seed, s, u) && Group(t, links, seed, s', u')
    ensures s == s' && u == u'
  {
    assert Closed(t, links, seed, s, u) && Closed(t, links, seed, s', u');
  }

  // ---- anchors ------------------------------------------------------------------------------------------

  /** A node lies in the subtree of its nearest item or table. */
  lemma {:induction false} NearestAbove(t: Tree, current: Option<string>, kind: NodeType, visited: set<string>, u: set<string>)
    requires ChildClosed(t, u)
    ensures var n := NearestFrom(t, current, kind, visited);
      n.Some? && n.value in u ==> current.Some? && current.value in t && current.value in u
    decreases |t.Keys - visited|
  {
    if current.Some? && current.value in t && current.value !in visited && t[current.value].kind != kind {
      assert t.Keys - (visited + {current.value}) == (t.Keys - visited) - {current.value};
      NearestAbove(t, t[current.value].parent, kind, visited + {current.value}, u);
    }
  }

  lemma {:induction false} NearestSelected(t: Tree, current: Option<string>, kind: NodeType, visited: set<string>, s: set<string>)
    requires ParentClosed(t, s) && current.Some? && current.value in s
    ensures var n := NearestFrom(t, current, kind, visited); n.Some? ==> n.value in s && n.value in t
    decreases |t.Keys - visited|
  {
    if current.value in t && current.value !in visited && t[current.value].kind != kind && HasParent(t, current.value) {
      assert t.Keys - (visited + {current.value}) == (t.Keys - visited) - {current.value};
      NearestSelected(t, t[current.value].parent, kind, visited + {current.value}, s);
    }
  }

  /** Once its anchor is substantive, so is the node, and all its headings are selected: adding it
      again changes nothing. This is why the loop may test `substantive` alone. */
  lemma AnchorCarries(t: Tree, id: string, selected: set<string>, substantive: set<string>)
    requires Shaped(t, selected, substantive) && id in t && Anchor(t, id) in substantive
    ensures id in substantive && id in selected
  {
    NearestAbove(t, Some(id), Item, {}, substantive);
    NearestAbove(t, Some(id), Table, {}, substantive);
  }

  lemma AnchorSelected(t: Tree, id: string, selected: set<string>)
    requires ParentClosed(t, selected) && id in selected && id in t
    ensures Anchor(t, id) in selected && Anchor(t, id) in t
  {
    NearestSelected(t, Some(id), Item, {}, selected);
    NearestSelected(t, Some(id), Table, {}, selected);
  }

  // ---- adding one node ----------------------------------------------------------------------------------

  /** The pair contains the given one, is shaped, and includes `id`. */
  ghost predicate Extends(t: Tree, id: string, s: set<string>, u: set<string>, s': set<string>, u': set<string>) {
    Shaped(t, s', u') && s <= s' && u <= u' && Includes(t, id, s', u')
  }

  ghost predicate LeastExtension(t: Tree, id: string, s: set<string>, u: set<string>, s': set<string>, u': set<string>) {
    && Extends(t, id, s, u, s', u')
    && forall a, b :: Extends(t, id, s, u, a, b) ==> s' <= a && u' <= b
  }

  /** The climb reached `current`: only its selection may still be missing. */
  ghost predicate Climbing(t: Tree, id: string, s: set<string>, s': set<string>, current: Option<string>) {
    && s <= s' <= t.Keys && (id in s' || current == Some(id))
    && (forall x :: x in s' && HasParent(t, x) ==> t[x].parent.value in s' || t[x].parent == current)
    && (forall a :: ParentClosed(t, a) && s <= a && id in a ==>
        s' <= a && (current.Some? && current.value in t ==> current.value in a))
  }

  lemma ClimbStep(t: Tree, id: string, s: set<string>, s': set<string>, current: string)
    requires Climbing(t, id, s, s', Some(current)) && current in t
    ensures Climbing(t, id, s, s' + {current}, t[current].parent)
  {
  }

  /** What the climb knows of the nearest node of one kind. */
  ghost predicate Found(t: Tree, id: string, kind: NodeType, found: Option<string>, current: Option<string>, visited: set<string>) {
    NearestFrom(t, Some(id), kind, {}) == if found.Some? then found else NearestFrom(t, current, kind, visited)
  }

  method Climb(t: Tree, id: string, selected: set<string>)
    returns (s: set<string>, item: Option<string>, table: Option<string>)
    requires Forest(t) && id in t && selected <= t.Keys && ParentClosed(t, selected)
    ensures selected <= s <= t.Keys && ParentClosed(t, s) && id in s
    ensures forall a :: ParentClosed(t, a) && selected <= a && id in a ==> s <= a
    ensures item == NearestFrom(t, Some(id), Item, {}) && table == NearestFrom(t, Some(id), Table, {})
  {
    ghost var rank :| Ranks(t, rank);
    ghost var visited: set<string> := {};
    s := selected;
    item, table := None, None;
    var current := Some(id);
    while current.Some? && current.value in t
      invariant Climbing(t, id, selected, s, current)
      invariant Found(t, id, Item, item, current, visited) && Found(t, id, Table, table, current, visited)
      invariant visited <= t.Keys
      invariant current.Some? && current.value in t ==> forall v :: v in visited ==> rank[current.value] < rank[v]
      decreases if current.Some? && current.value in t then rank[current.value] + 1 else 0
    {
      ClimbStep(t, id, selected, s, current.value);
      s := s + {current.value};
      if item.None? && t[current.value].kind == Item {
        item := current;
      }
      if table.None? && t[current.value].kind == Table {
        table := current;
      }
      visited := visited + {current.value};
      current := t[current.value].parent;
    }
  }

  // ---- whole subtrees -----------------------------------------------------------------------------------

  ghost predicate ChildIndex(t: Tree, children: map<string, set<string>>) {
    && (forall p :: p in children ==> forall id :: id in children[p] ==> id in t && t[id].parent == Some(p))
    && (forall id :: id in t && t[id].parent.Some? ==>
        t[id].parent.value in children && id in children[t[id].parent.value])
  }

  /** Every pending node will be substantive in any shaped pair above the start. */
  ghost predicate Descending(t: Tree, start: string, s0: set<string>, u0: set<string>,
                             s: set<string>, u: set<string>, pending: seq<string>) {
    && s0 <= s && u0 <= u <= s && s <= t.Keys && ParentClosed(t, s) && (start in u || start in pending)
    && (forall i :: 0 <= i < |pending| ==>
        pending[i] in t && (HasParent(t, pending[i]) ==> t[pending[i]].parent.value in s))
    && (forall id :: id in t && HasParent(t, id) && t[id].parent.value in u ==> id in u || id in pending)
    && (forall a, b :: Shaped(t, a, b) && s0 <= a && u0 <= b && start in b ==>
        s <= a && u <= b && forall i :: 0 <= i < |pending| ==> pending[i] in b)
  }

  lemma DescendSkip(t: Tree, start: string, s0: set<string>, u0: set<string>,
                    s: set<string>, u: set<string>, pending: seq<string>)
    requires Descending(t, start, s0, u0, s, u, pending) && |pending| > 0 && pending[|pending| - 1] in u
    ensures Descending(t, start, s0, u0, s, u, pending[..|pending| - 1])
  {
    var n := |pending| - 1;
    assert pending == pending[..n] + [pending[n]];
  }

  lemma DescendStep(t: Tree, start: string, s0: set<string>, u0: set<string>,
                    s: set<string>, u: set<string>, pending: seq<string>, more: seq<string>)
    requires Descending(t, start, s0, u0, s, u, pending) && |pending| > 0
    requires forall id :: id in more <==> id in t && t[id].parent == Some(pending[|pending| - 1])
    ensures var current := pending[|pending| - 1];
      Descending(t, start, s0, u0, s + {current}, u + {current}, pending[..|pending| - 1] + more)
  {
    var n := |pending| - 1;
    var current, rest := pending[n], pending[..n] + more;
    assert pending == pending[..n] + [current];
    forall i | 0 <= i < |rest|
      ensures rest[i] in t && (HasParent(t, rest[i]) ==> t[rest[i]].parent.value in s + {current})
    {
      if i >= n { assert rest[i] in more; }
    }
    forall a, b | Shaped(t, a, b) && s0 <= a && u0 <= b && start in b
      ensures s + {current} <= a && u + {current} <= b
      ensures forall i :: 0 <= i < |rest| ==> rest[i] in b
    {
      assert current in b;
      forall i | 0 <= i < |rest| ensures rest[i] in b {
        if i >= n { assert rest[i] in more; }
      }
    }
  }

  /** The members of a set in some order. */
  method Listed(ids: set<string>) returns (r: seq<string>)
    ensures forall id :: id in r <==> id in ids
  {
    r := [];
    var rest := ids;
    while rest != {}
      invariant rest <= ids && forall id :: id in ids <==> id in rest || id in r
    {
      var id :| id in rest;
      rest := rest - {id};
      r := r + [id];
    }
  }

  method Descend(t: Tree, children: map<string, set<string>>, start: string, selected: set<string>, substantive: set<string>)
    returns (s: set<string>, u: set<string>)
    requires ChildIndex(t, children) && Shaped(t, selected, substantive) && selected <= t.Keys
    requires start in t && start in selected
    ensures Descending(t, start, selected, substantive, s, u, [])
  {
    s, u := selected, substantive;
    var pending := [start];
    while pending != []
      invariant Descending(t, start, selected, substantive, s, u, pending)
      decreases |t.Keys - u|, |pending|
    {
      var current := pending[|pending| - 1];
      if current in u {
        DescendSkip(t, start, selected, substantive, s, u, pending);
        pending := pending[..|pending| - 1];
        continue;
      }
      var more: seq<string> := [];
      if current in children {
        more := Listed(children[current]);
      }
      DescendStep(t, start, selected, substantive, s, u, pending, more);
      assert t.Keys - (u + {current}) == (t.Keys - u) - {current};
      u := u + {current};
      s := s + {current};
      pending := pending[..|pending| - 1] + more;
    }
  }

  lemma AddLeast(t: Tree, id: string, start: string, s0: set<string>, u0: set<string>, s1: set<string>, s: set<string>, u: set<string>)
    requires Shaped(t, s0, u0) && id in t && start == Anchor(t, id)
    requires s0 <= s1 && ParentClosed(t, s1) && id in s1
    requires forall a :: ParentClosed(t, a) && s0 <= a && id in a ==> s1 <= a
    requires Descending(t, start, s1, u0, s, u, [])
    ensures LeastExtension(t, id, s0, u0, s, u)
    ensures u == u0 ==> s == s0
  {
    forall a, b | Extends(t, id, s0, u0, a, b) ensures s <= a && u <= b {
      assert s1 <= a;
    }
    if u == u0 {
      AnchorCarries(t, id, s0, u0);
      assert s1 <= s0;
      assert Shaped(t, s0, u0);
    }
  }

  /** The inner `add`: the least shaped pair above the given one that includes `id`; if it leaves
      `substantive` alone, it leaves `selected` alone too. */
  method Add(t: Tree, children: map<string, set<string>>, id: string, selected: set<string>, substantive: set<string>)
    returns (s: set<string>, u: set<string>)
    requires Forest(t) && ChildIndex(t, children) && Shaped(t, selected, substantive) && selected <= t.Keys
    ensures LeastExtension(t, id, selected, substantive, s, u) && s <= t.Keys
    ensures u == substantive ==> s == selected
  {
    if id !in t {
      return selected, substantive;
    }
    var climbed, item, table := Climb(t, id, selected);
    var start := if item.Some? then item.value else if table.Some? then table.value else id;
    AnchorSelected(t, id, climbed);
    s, u := Descend(t, children, start, climbed, substantive);
    AddLeast(t, id, start, selected, substantive, climbed, s, u);
  }

  // ---- one pass over the links ---------------------------------------------------------------------------

  /** A partial group: shaped, with the seed, and inside every closed pair. */
  ghost predicate Partial(t: Tree, links: set<Link>, seed: string, s: set<string>, u: set<string>) {
    s <= t.Keys && Shaped(t, s, u) && Includes(t, seed, s, u) && Below(t, links, seed, s, u)
  }

  /** Later sets contain earlier ones, and `selected` grew only if `substantive` did. */
  ghost predicate Grew(s0: set<string>, u0: set<string>, s: set<string>, u: set<string>) {
    s0 <= s && u0 <= u && (u == u0 ==> s == s0)
  }

  lemma AddStaysBelow(t: Tree, links: set<Link>, seed: string, id: string, s: set<string>, u: set<string>, s': set<string>, u': set<string>)
    requires Partial(t, links, seed, s, u) && LeastExtension(t, id, s, u, s', u') && s' <= t.Keys
    requires forall a, b :: Closed(t, links, seed, a, b) ==> Includes(t, id, a, b)
    ensures Partial(t, links, seed, s', u')
  {
    forall a, b | Closed(t, links, seed, a, b) ensures s' <= a && u' <= b {
      assert Extends(t, id, s, u, a, b);
    }
  }

  /** The body of the link loop. */
  method ApplyLink(t: Tree, children: map<string, set<string>>, link: Link, ghost links: set<Link>, ghost seed: string,
                   selected: set<string>, substantive: set<string>)
    returns (s: set<string>, u: set<string>)
    requires Forest(t) && ChildIndex(t, children) && link in links && Partial(t, links, seed, selected, substantive)
    ensures Partial(t, links, seed, s, u) && Grew(selected, substantive, s, u)
    ensures u == substantive ==> LinkRule(t, link, s, u)
  {
    s, u := selected, substantive;
    if link.kind == AppliesTo && link.to in s {
      assert forall a, b :: Closed(t, links, seed, a, b) ==> LinkRule(t, link, a, b);
      s, u := Add(t, children, link.from, s, u);
      AddStaysBelow(t, links, seed, link.from, selected, substantive, s, u);
    } else if Binds(link.kind) && (link.from in u || link.to in u) {
      assert forall a, b :: Closed(t, links, seed, a, b) ==> LinkRule(t, link, a, b);
      var s1, u1 := Add(t, children, link.from, s, u);
      AddStaysBelow(t, links, seed, link.from, selected, substantive, s1, u1);
      s, u := Add(t, children, link.to, s1, u1);
      AddStaysBelow(t, links, seed, link.to, s1, u1, s, u);
    }
  }

  /** One `for link in links` pass, in any order. */
  method Pass(t: Tree, children: map<string, set<string>>, links: set<Link>, ghost seed: string,
              selected: set<string>, substantive: set<string>)
    returns (s: set<string>, u: set<string>)
    requires Forest(t) && ChildIndex(t, children) && Partial(t, links, seed, selected, substantive)
    ensures Partial(t, links, seed, s, u) && Grew(selected, substantive, s, u)
    ensures u == substantive ==> Group(t, links, seed, s, u)
  {
    s, u := selected, substantive;
    var todo := links;
    while todo != {}
      invariant todo <= links && Partial(t, links, seed, s, u) && Grew(selected, substantive, s, u)
      invariant u == substantive ==> forall link :: link in links - todo ==> LinkRule(t, link, s, u)
    {
      var link :| link in todo;
      s, u := ApplyLink(t, children, link, links, seed, s, u);
      todo := todo - {link};
    }
  }

  /** Passes until `substantive` is stable. */
  method Saturate(t: Tree, children: map<string, set<string>>, links: set<Link>, seed: string)
    returns (s: set<string>, u: set<string>)
    requires Forest(t) && ChildIndex(t, children)
    ensures Group(t, links, seed, s, u) && s <= t.Keys
  {
    s, u := Add(t, children, seed, {}, {});
    SeedBelow(t, links, seed, s, u);
    while true
      invariant Partial(t, links, seed, s, u)
      decreases |t.Keys - u|
    {
      var before := |u|;
      ghost var u0 := u;
      s, u := Pass(t, children, links, seed, s, u);
      if u != u0 {
        SmallerLeft(t.Keys, u0, u);
      }
      if |u| == before {
        break;
      }
    }
  }

  lemma SeedBelow(t: Tree, links: set<Link>, seed: string, s: set<string>, u: set<string>)
    requires LeastExtension(t, seed, {}, {}, s, u) && s <= t.Keys
    ensures Partial(t, links, seed, s, u)
  {
    forall a, b | Closed(t, links, seed, a, b) ensures s <= a && u <= b {
      assert Extends(t, seed, {}, {}, a, b);
    }
  }

  lemma SmallerLeft(all: set<string>, u0: set<string>, u: set<string>)
    requires u0 < u <= all
    ensures |all - u| < |all - u0| && |u0| < |u|
  {
    assert u == u0 + (u - u0);
    assert all - u0 == (all - u) + (u - u0);
  }

  // ---- the returned nodes ---------------------------------------------------------------------------------

  function KeptLinks(links: seq<Link>, selected: set<string>): seq<Link> {
    if links == [] then []
    else
      var front := KeptLinks(links[..|links| - 1], selected);
      var link := links[|links| - 1];
      if link.from in selected && link.to in selected then front + [link] else front
  }

  function Restrict(nodes: seq<StructureNode>, selected: set<string>): seq<StructureNode> {
    if nodes == [] then []
    else
      var front := Restrict(nodes[..|nodes| - 1], selected);
      var node := nodes[|nodes| - 1];
      if node.id in selected then front + [node.(links := KeptLinks(node.links, selected))] else front
  }

  lemma {:induction false} KeptLinksMembers(links: seq<Link>, selected: set<string>)
    ensures forall k :: k in KeptLinks(links, selected) <==> k in links && k.from in selected && k.to in selected
  {
    if links != [] {
      KeptLinksMembers(links[..|links| - 1], selected);
      assert links == links[..|links| - 1] + [links[|links| - 1]];
    }
  }

  ghost predicate HasId(nodes: seq<StructureNode>, id: string) {
    exists i :: 0 <= i < |nodes| && nodes[i].id == id
  }

  /** No link leads out of the returned nodes. */
  ghost predicate NoDangling(nodes: seq<StructureNode>) {
    forall i, link :: 0 <= i < |nodes| && link in nodes[i].links ==> HasId(nodes, link.from) && HasId(nodes, link.to)
  }

  lemma {:induction false} RestrictIds(nodes: seq<StructureNode>, selected: set<string>, id: string)
    ensures HasId(Restrict(nodes, selected), id) <==> id in selected && HasId(nodes, id)
  {
    if nodes != [] {
      var n := |nodes| - 1;
      var front, out := nodes[..n], Restrict(nodes, selected);
      RestrictIds(front, selected, id);
      var before := Restrict(front, selected);
      if HasId(before, id) {
        var i :| 0 <= i < |before| && before[i].id == id;
        assert out[i].id == id;
      }
      if HasId(front, id) {
        var i :| 0 <= i < |front| && front[i].id == id;
        assert nodes[i].id == id;
      }
      if nodes[n].id == id {
        assert HasId(nodes, id);
        if id in selected { assert out[|before|].id == id; }
      }
    }
  }

  lemma {:induction false} RestrictLinks(nodes: seq<StructureNode>, selected: set<string>, i: nat)
    requires i < |Restrict(nodes, selected)|
    ensures forall link :: link in Restrict(nodes, selected)[i].links ==> link.from in selected && link.to in selected
  {
    var n := |nodes| - 1;
    if i < |Restrict(nodes[..n], selected)| {
      RestrictLinks(nodes[..n], selected, i);
    } else {
      KeptLinksMembers(nodes[n].links, selected);
    }
  }

  lemma {:induction false} RestrictUnique(nodes: seq<StructureNode>, selected: set<string>)
    requires UniqueIds(nodes)
    ensures UniqueIds(Restrict(nodes, selected))
  {
    if nodes != [] {
      var n := |nodes| - 1;
      RestrictUnique(nodes[..n], selected);
      RestrictIds(nodes[..n], selected, nodes[n].id);
      assert !HasId(nodes[..n], nodes[n].id);
    }
  }

  lemma RestrictNoDangling(nodes: seq<StructureNode>, selected: set<string>)
    requires forall id :: id in selected ==> HasId(nodes, id)
    ensures NoDangling(Restrict(nodes, selected))
  {
    var r := Restrict(nodes, selected);
    forall i, link | 0 <= i < |r| && link in r[i].links ensures HasId(r, link.from) && HasId(r, link.to) {
      RestrictLinks(nodes, selected, i);
      RestrictIds(nodes, selected, link.from);
      RestrictIds(nodes, selected, link.to);
    }
  }

  // ---- the whole operation --------------------------------------------------------------------------------

  ghost function TreeOf(nodes: seq<StructureNode>): Tree {
    if nodes == [] then map[]
    else TreeOf(nodes[..|nodes| - 1])[nodes[|nodes| - 1].id := nodes[|nodes| - 1]]
  }

  lemma {:induction false} TreeOfIndexes(nodes: seq<StructureNode>)
    requires UniqueIds(nodes)
    ensures Indexes(TreeOf(nodes), nodes)
  {
    if nodes != [] {
      var n := |nodes| - 1;
      TreeOfIndexes(nodes[..n]);
      assert nodes == nodes[..n] + [nodes[n]];
      forall i | 0 <= i < |nodes| ensures nodes[i].id in TreeOf(nodes) && TreeOf(nodes)[nodes[i].id] == nodes[i] {
        if i < n { assert nodes[..n][i] == nodes[i]; }
      }
    }
  }

  method IndexNodes(nodes: seq<StructureNode>) returns (t: Tree)
    ensures t == TreeOf(nodes)
  {
    t := map[];
    for i := 0 to |nodes|
      invariant t == TreeOf(nodes[..i])
    {
      assert nodes[..i + 1][..i] == nodes[..i];
      t := t[nodes[i].id := nodes[i]];
    }
    assert nodes[..|nodes|] == nodes;
  }

  ghost predicate ChildrenUpTo(nodes: seq<StructureNode>, n: nat, children: map<string, set<string>>)
    requires n <= |nodes|
  {
    && (forall p, id :: p in children && id in children[p] ==>
        exists i :: 0 <= i < n && nodes[i].id == id && nodes[i].parent == Some(p))
    && (forall i :: 0 <= i < n && nodes[i].parent.Some? ==>
        nodes[i].parent.value in children && nodes[i].id in children[nodes[i].parent.value])
  }

  method IndexChildren(nodes: seq<StructureNode>) returns (children: map<string, set<string>>)
    ensures ChildrenUpTo(nodes, |nodes|, children)
  {
    children := map[];
    for i := 0 to |nodes|
      invariant ChildrenUpTo(nodes, i, children)
    {
      if nodes[i].parent.Some? {
        var p := nodes[i].parent.value;
        var before := children;
        children := children[p := (if p in children then children[p] else {}) + {nodes[i].id}];
        forall q, id | q in children && id in children[q]
          ensures exists k :: 0 <= k < i + 1 && nodes[k].id == id && nodes[k].parent == Some(q)
        {
          if q in before && id in before[q] {
            var k :| 0 <= k < i && nodes[k].id == id && nodes[k].parent == Some(q);
          } else {
            assert nodes[i].id == id && nodes[i].parent == Some(q);
          }
        }
      }
    }
  }

  lemma ChildrenIndexed(nodes: seq<StructureNode>, t: Tree, children: map<string, set<string>>)
    requires Indexes(t, nodes) && ChildrenUpTo(nodes, |nodes|, children)
    ensures ChildIndex(t, children)
  {
    forall id | id in t && t[id].parent.Some?
      ensures t[id].parent.value in children && id in children[t[id].parent.value]
    {
      var i :| 0 <= i < |nodes| && nodes[i] == t[id];
    }
  }

  ghost function LinksOf(nodes: seq<StructureNode>): set<Link> {
    set i, link | 0 <= i < |nodes| && link in nodes[i].links :: link
  }

  method CollectLinks(nodes: seq<StructureNode>) returns (links: set<Link>)
    ensures links == LinksOf(nodes)
  {
    links := {};
    for i := 0 to |nodes|
      invariant links == LinksOf(nodes[..i])
    {
      assert LinksOf(nodes[..i + 1]) == LinksOf(nodes[..i]) + set link | link in nodes[i].links by {
        assert forall k :: 0 <= k < i ==> nodes[..i + 1][k] == nodes[..i][k];
        assert nodes[..i + 1][i] == nodes[i];
      }
      links := links + set link | link in nodes[i].links;
    }
    assert nodes[..|nodes|] == nodes;
  }

  ghost predicate Heading(t: Tree, seed: string) {
    seed !in t || t[seed].kind == Root || t[seed].kind == MajorSectionNode
  }

  /** `clause_group`: the nodes of the least closed pair around the seed, in document order, with
      the links among them; nothing for a missing seed or a heading of the document. */
  method ClauseGroupOf(nodes: seq<StructureNode>, seed: string)
    returns (r: seq<StructureNode>, ghost selected: set<string>, ghost substantive: set<string>)
    requires UniqueIds(nodes) && Forest(TreeOf(nodes))
    ensures Heading(TreeOf(nodes), seed) ==> r == []
    ensures !Heading(TreeOf(nodes), seed) ==>
      && Group(TreeOf(nodes), LinksOf(nodes), seed, selected, substantive)
      && r == Restrict(nodes, selected) && HasId(r, seed)
    ensures UniqueIds(r) && NoDangling(r)
  {
    TreeOfIndexes(nodes);
    var t := IndexNodes(nodes);
    selected, substantive := {}, {};
    if seed !in t || t[seed].kind == Root || t[seed].kind == MajorSectionNode {
      return [], {}, {};
    }
    var children := IndexChildren(nodes);
    ChildrenIndexed(nodes, t, children);
    var links := CollectLinks(nodes);
    var s, u := Saturate(t, children, links, seed);
    selected, substantive := s, u;
    r := Restrict(nodes, s);
    forall id | id in s ensures HasId(nodes, id) {
      var i :| 0 <= i < |nodes| && nodes[i] == t[id];
    }
    RestrictUnique(nodes, s);
    RestrictNoDangling(nodes, s);
    RestrictIds(nodes, s, seed);
  }

  // ---- where the members of a group come from ----------------------------------------------------------------

  /** `x` lies in the subtree of `root`: in every set that contains `root` and all children. */
  ghost predicate Under(t: Tree, root: string, x: string) {
    forall b :: ChildClosed(t, b) && root in b ==> x in b
  }

  /** `x` is `y` or a heading above it. */
  ghost predicate AboveNode(t: Tree, x: string, y: string) {
    forall a :: ParentClosed(t, a) && y in a ==> x in a
  }

  /** The seed and the ends of semantic links, as far as the group includes them; sibling links
      contribute nothing. */
  ghost function Ends(t: Tree, links: set<Link>, seed: string, u: set<string>): set<string> {
    set y | y in t && Anchor(t, y) in u && IsEnd(links, seed, y)
  }

  ghost predicate IsEnd(links: set<Link>, seed: string, y: string) {
    || y == seed
    || exists link :: link in links
                      && ((link.kind == AppliesTo && y == link.from)
                          || (Binds(link.kind) && (y == link.from || y == link.to)))
  }

  ghost predicate FromEnd(t: Tree, ends: set<string>, x: string) {
    exists y :: y in ends && y in t && Under(t, Anchor(t, y), x)
  }

  ghost predicate HeadsEnd(t: Tree, ends: set<string>, x: string) {
    exists y :: y in ends && y in t && AboveNode(t, x, y)
  }

  lemma UnderChild(t: Tree, ends: set<string>, id: string)
    requires id in t && HasParent(t, id) && FromEnd(t, ends, t[id].parent.value)
    ensures FromEnd(t, ends, id)
  {
    var y :| y in ends && y in t && Under(t, Anchor(t, y), t[id].parent.value);
    assert Under(t, Anchor(t, y), id);
  }

  /** A member of a subtree is its root, or its parent is a member too. */
  lemma UnderParent(t: Tree, root: string, x: string)
    requires Under(t, root, x) && root in t && x in t && x != root
    ensures HasParent(t, x) && Under(t, root, t[x].parent.value)
  {
    var b := set id | id in t && (id == root || (HasParent(t, id) && Under(t, root, t[id].parent.value)));
    forall id | id in t && HasParent(t, id) && t[id].parent.value in b ensures id in b {
      var p := t[id].parent.value;
      if p != root {
        assert Under(t, root, p);
      }
    }
    assert ChildClosed(t, b) && root in b;
  }

  lemma AnchorAbove(t: Tree, y: string)
    requires y in t
    ensures Anchor(t, y) in t && AboveNode(t, Anchor(t, y), y)
  {
    forall a | ParentClosed(t, a) && y in a ensures Anchor(t, y) in a {
      AnchorSelected(t, y, a);
    }
    assert ParentClosed(t, t.Keys);
    AnchorSelected(t, y, t.Keys);
  }

  lemma EndsAbove(t: Tree, ends: set<string>, x: string)
    requires x in t && HasParent(t, x) && (FromEnd(t, ends, x) || HeadsEnd(t, ends, x))
    ensures FromEnd(t, ends, t[x].parent.value) || HeadsEnd(t, ends, t[x].parent.value)
  {
    var p := t[x].parent.value;
    if FromEnd(t, ends, x) {
      var y :| y in ends && y in t && Under(t, Anchor(t, y), x);
      AnchorAbove(t, y);
      if x == Anchor(t, y) {
        assert AboveNode(t, p, y);
      } else {
        UnderParent(t, Anchor(t, y), x);
      }
    } else {
      var y :| y in ends && y in t && AboveNode(t, x, y);
      assert AboveNode(t, p, y);
    }
  }

  /** A group holds nothing unrelated: every substantive node is in the subtree anchored at the seed
      or at a linked node, and every other member is a heading above one of those. */
  lemma GroupOrigins(t: Tree, links: set<Link>, seed: string, s: set<string>, u: set<string>)
    requires Group(t, links, seed, s, u) && s <= t.Keys
    ensures forall x :: x in u ==> FromEnd(t, Ends(t, links, seed, u), x)
    ensures forall x :: x in s ==> x in u || HeadsEnd(t, Ends(t, links, seed, u), x)
  {
    var ends := Ends(t, links, seed, u);
    var u' := set x | x in u && FromEnd(t, ends, x);
    var s' := set x | x in s && (x in u' || HeadsEnd(t, ends, x));
    forall id | id in t && HasParent(t, id) && t[id].parent.value in u' ensures id in u' {
      UnderChild(t, ends, id);
    }
    forall x | x in s' && x in t && HasParent(t, x) ensures t[x].parent.value in s' {
      OriginsParent(t, ends, s, u, x);
    }
    OriginsClosed(t, links, seed, s, u, s', u');
  }

  lemma OriginsParent(t: Tree, ends: set<string>, s: set<string>, u: set<string>, x: string)
    requires Shaped(t, s, u) && x in s && x in t && HasParent(t, x)
    requires forall y :: y in ends && y in t ==> Anchor(t, y) in u
    requires (x in u && FromEnd(t, ends, x)) || HeadsEnd(t, ends, x)
    ensures var p := t[x].parent.value; p in s && ((p in u && FromEnd(t, ends, p)) || HeadsEnd(t, ends, p))
  {
    EndsAbove(t, ends, x);
    var p := t[x].parent.value;
    if FromEnd(t, ends, p) {
      var y :| y in ends && y in t && Under(t, Anchor(t, y), p);
      assert p in u;
    }
  }

  lemma OriginsClosed(t: Tree, links: set<Link>, seed: string, s: set<string>, u: set<string>, s': set<string>, u': set<string>)
    requires Closed(t, links, seed, s, u) && Shaped(t, s', u') && s' <= s && u' <= u
    requires forall x :: x in u && FromEnd(t, Ends(t, links, seed, u), x) ==> x in u'
    requires forall x :: x in s && HeadsEnd(t, Ends(t, links, seed, u), x) ==> x in s'
    ensures Closed(t, links, seed, s', u')
  {
    forall y | y in Ends(t, links, seed, u) && Includes(t, y, s, u) ensures Includes(t, y, s', u') {
      if y in t {
        assert AboveNode(t, y, y);
        assert Under(t, Anchor(t, y), Anchor(t, y));
      }
    }
    forall link | link in links ensures LinkRule(t, link, s', u') {
      assert LinkRule(t, link, s, u);
    }
  }
}
