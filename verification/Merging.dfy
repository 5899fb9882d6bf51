/** Merging a complete clause group into the evidence bundles of a compact response. */
module Merging {
  import opened ClauseGroup

  datatype Match = Match(node: StructureNode, lexicalOnly: bool)

  datatype Bundle = Bundle(
    contract: string, matches: seq<Match>, nodes: seq<StructureNode>, linkedNotices: nat, parentExpansion: nat)

  // ---- orders ----------------------------------------------------------------------------------------------

  /** Python's order on strings: by code point, a prefix first. */
  predicate Lex(a: string, b: string) {
    a == [] || (b != [] && (a[0] < b[0] || (a[0] == b[0] && Lex(a[1..], b[1..]))))
  }

  lemma {:induction false} LexTotal(a: string, b: string)
    ensures Lex(a, b) || Lex(b, a)
    ensures Lex(a, b) && Lex(b, a) ==> a == b
  {
    if a != [] && b != [] && a[0] == b[0] {
      LexTotal(a[1..], b[1..]);
      assert a == [a[0]] + a[1..] && b == [b[0]] + b[1..];
    }
  }

  lemma {:induction false} LexTransitive(a: string, b: string, c: string)
    requires Lex(a, b) && Lex(b, c)
    ensures Lex(a, c)
  {
    if a != [] && a[0] == b[0] && b[0] == c[0] {
      LexTransitive(a[1..], b[1..], c[1..]);
    }
  }

  predicate NodeBy(a: StructureNode, b: StructureNode) {
    a.ordinal < b.ordinal || (a.ordinal == b.ordinal && Lex(a.id, b.id))
  }

  function LinkRank(k: LinkType): nat {
    match k
    case AppliesTo => 0
    case ContinuationOf => 1
    case FootnoteOf => 2
    case NextSibling => 3
    case Previous => 4
  }

  predicate LinkBy(a: Link, b: Link) {
    if a.from != b.from then Lex(a.from, b.from)
    else if a.to != b.to then Lex(a.to, b.to)
    else LinkRank(a.kind) <= LinkRank(b.kind)
  }

  lemma NodeByOrder(a: StructureNode, b: StructureNode, c: StructureNode)
    ensures NodeBy(a, b) || NodeBy(b, a)
    ensures NodeBy(a, b) && NodeBy(b, c) ==> NodeBy(a, c)
  {
    LexTotal(a.id, b.id);
    if Lex(a.id, b.id) && Lex(b.id, c.id) {
      LexTransitive(a.id, b.id, c.id);
    }
  }

  lemma LinkByOrder(a: Link, b: Link, c: Link)
    ensures LinkBy(a, b) || LinkBy(b, a)
    ensures LinkBy(a, b) && LinkBy(b, c) ==> LinkBy(a, c)
  {
    LexTotal(a.from, b.from);
    LexTotal(b.from, c.from);
    LexTotal(a.to, b.to);
    LexTotal(b.to, c.to);
    if Lex(a.from, b.from) && Lex(b.from, c.from) {
      LexTransitive(a.from, b.from, c.from);
    }
    if Lex(a.to, b.to) && Lex(b.to, c.to) {
      LexTransitive(a.to, b.to, c.to);
    }
  }

  // ---- sorted union of links ----------------------------------------------------------------------------------

  ghost predicate LinksSorted(links: seq<Link>) {
    forall i, j :: 0 <= i < j < |links| ==> LinkBy(links[i], links[j]) && links[i] != links[j]
  }

  function InsertLink(links: seq<Link>, link: Link): seq<Link> {
    if links == [] then [link]
    else if links[0] == link then links
    else if LinkBy(link, links[0]) then [link] + links
    else [links[0]] + InsertLink(links[1..], link)
  }

  /** `sorted(set(old) | set(new))`. */
  function UnionLinks(sorted: seq<Link>, more: seq<Link>): seq<Link> {
    if more == [] then sorted else InsertLink(UnionLinks(sorted, more[..|more| - 1]), more[|more| - 1])
  }

  lemma {:induction false} InsertLinkFacts(links: seq<Link>, link: Link)
    requires LinksSorted(links)
    ensures forall k :: k in InsertLink(links, link) <==> k in links || k == link
    ensures LinksSorted(InsertLink(links, link))
  {
    if links != [] && links[0] != link {
      var rest := links[1..];
      assert links == [links[0]] + rest;
      LinkByOrder(link, links[0], link);
      if LinkBy(link, links[0]) {
        forall j | 0 <= j < |links| ensures LinkBy(link, links[j]) && link != links[j] {
          LinkByOrder(link, links[0], links[j]);
          LinkAntisymmetric(links[0], links[j]);
        }
      } else {
        InsertLinkFacts(rest, link);
        var r := InsertLink(rest, link);
        forall j | 0 <= j < |r| ensures LinkBy(links[0], r[j]) && links[0] != r[j] {
          assert r[j] in r;
          if r[j] != link {
            var m :| 0 <= m < |rest| && rest[m] == r[j];
            assert links[m + 1] == r[j];
          }
        }
      }
    }
  }

  lemma LinkAntisymmetric(a: Link, b: Link)
    ensures LinkBy(a, b) && LinkBy(b, a) ==> a == b
  {
    LexTotal(a.from, b.from);
    LexTotal(a.to, b.to);
  }

  lemma {:induction false} UnionLinksFacts(sorted: seq<Link>, more: seq<Link>)
    requires LinksSorted(sorted)
    ensures forall k :: k in UnionLinks(sorted, more) <==> k in sorted || k in more
    ensures LinksSorted(UnionLinks(sorted, more))
  {
    if more != [] {
      var front := more[..|more| - 1];
      UnionLinksFacts(sorted, front);
      InsertLinkFacts(UnionLinks(sorted, front), more[|more| - 1]);
      assert more == front + [more[|more| - 1]];
    }
  }

  /** The links of a node that two sides hold. */
  function BothLinks(old_: seq<Link>, new_: seq<Link>): seq<Link> {
    UnionLinks(UnionLinks([], old_), new_)
  }

  lemma BothLinksMembers(a: seq<Link>, b: seq<Link>)
    ensures forall k :: k in BothLinks(a, b) <==> k in a || k in b
    ensures LinksSorted(BothLinks(a, b))
  {
    UnionLinksFacts([], a);
    UnionLinksFacts(UnionLinks([], a), b);
  }

  // ---- node dictionaries ------------------------------------------------------------------------------------

  function Slot(nodes: seq<StructureNode>, id: string): (k: nat)
    ensures k <= |nodes| && (k < |nodes| ==> nodes[k].id == id)
    ensures k == |nodes| ==> forall i :: 0 <= i < |nodes| ==> nodes[i].id != id
  {
    if nodes == [] then 0
    else
      var k := Slot(nodes[..|nodes| - 1], id);
      if k < |nodes| - 1 then k else if nodes[|nodes| - 1].id == id then |nodes| - 1 else |nodes|
  }

  /** One step of the node loop: a known id keeps its place and gets the links of both sides. */
  function Put(nodes: seq<StructureNode>, node: StructureNode): seq<StructureNode> {
    var k := Slot(nodes, node.id);
    if k < |nodes| then nodes[k := node.(links := BothLinks(nodes[k].links, node.links))] else nodes + [node]
  }

  function PutAll(nodes: seq<StructureNode>, more: seq<StructureNode>): seq<StructureNode> {
    if more == [] then nodes else Put(PutAll(nodes, more[..|more| - 1]), more[|more| - 1])
  }

  ghost predicate HasLink(nodes: seq<StructureNode>, id: string, link: Link) {
    exists i :: 0 <= i < |nodes| && nodes[i].id == id && link in nodes[i].links
  }

  /** A node with this content, its links aside. */
  ghost predicate HasBody(nodes: seq<StructureNode>, body: StructureNode) {
    exists i :: 0 <= i < |nodes| && nodes[i].(links := []) == body
  }

  ghost predicate SameExcept(nodes: seq<StructureNode>, r: seq<StructureNode>, k: nat, node: StructureNode) {
    && k < |r| && r[k].(links := []) == node.(links := [])
    && (k == |nodes| ==> |r| == |nodes| + 1) && (k < |nodes| ==> |r| == |nodes|)
    && k <= |nodes| && forall i :: 0 <= i < |nodes| && i != k ==> r[i] == nodes[i]
  }

  lemma PutShape(nodes: seq<StructureNode>, node: StructureNode)
    requires UniqueIds(nodes)
    ensures UniqueIds(Put(nodes, node))
    ensures SameExcept(nodes, Put(nodes, node), Slot(nodes, node.id), node)
    ensures forall l :: l in Put(nodes, node)[Slot(nodes, node.id)].links <==>
      l in node.links || (Slot(nodes, node.id) < |nodes| && l in nodes[Slot(nodes, node.id)].links)
  {
    var k := Slot(nodes, node.id);
    if k < |nodes| {
      BothLinksMembers(nodes[k].links, node.links);
    }
  }

  lemma PutIds(nodes: seq<StructureNode>, node: StructureNode, id: string)
    requires UniqueIds(nodes)
    ensures HasId(Put(nodes, node), id) <==> HasId(nodes, id) || id == node.id
  {
    PutShape(nodes, node);
    var r, k := Put(nodes, node), Slot(nodes, node.id);
    assert r[k].id == node.id;
    if HasId(nodes, id) {
      var i :| 0 <= i < |nodes| && nodes[i].id == id;
      assert r[i].id == id;
    }
    if HasId(r, id) && id != node.id {
      var i :| 0 <= i < |r| && r[i].id == id;
      assert nodes[i].id == id;
    }
  }

  lemma PutLinks(nodes: seq<StructureNode>, node: StructureNode, id: string, link: Link)
    requires UniqueIds(nodes)
    ensures HasLink(Put(nodes, node), id, link) <==> HasLink(nodes, id, link) || (id == node.id && link in node.links)
  {
    PutShape(nodes, node);
    var r, k := Put(nodes, node), Slot(nodes, node.id);
    if HasLink(nodes, id, link) {
      var i :| 0 <= i < |nodes| && nodes[i].id == id && link in nodes[i].links;
      assert r[i].id == id && link in r[i].links;
    }
    if id == node.id && link in node.links {
      assert r[k].id == id && link in r[k].links;
    }
    if HasLink(r, id, link) {
      var i :| 0 <= i < |r| && r[i].id == id && link in r[i].links;
      if i < |nodes| && link in nodes[i].links {
        assert nodes[i].id == id;
        assert HasLink(nodes, id, link);
      }
    }
  }

  lemma PutBody(nodes: seq<StructureNode>, node: StructureNode, body: StructureNode)
    requires UniqueIds(nodes)
    ensures HasBody(Put(nodes, node), body) ==> HasBody(nodes, body) || body == node.(links := [])
  {
    PutShape(nodes, node);
    var r, k := Put(nodes, node), Slot(nodes, node.id);
    if HasBody(r, body) {
      var i :| 0 <= i < |r| && r[i].(links := []) == body;
      if i != k {
        assert nodes[i].(links := []) == body;
      }
    }
  }

  lemma {:induction false} PutAllUnique(nodes: seq<StructureNode>, more: seq<StructureNode>)
    requires UniqueIds(nodes)
    ensures UniqueIds(PutAll(nodes, more))
  {
    if more != [] {
      PutAllUnique(nodes, more[..|more| - 1]);
      PutShape(PutAll(nodes, more[..|more| - 1]), more[|more| - 1]);
    }
  }

  lemma {:induction false} PutAllIds(nodes: seq<StructureNode>, more: seq<StructureNode>, id: string)
    requires UniqueIds(nodes)
    ensures HasId(PutAll(nodes, more), id) <==> HasId(nodes, id) || HasId(more, id)
  {
    if more != [] {
      var n := |more| - 1;
      var front := more[..n];
      PutAllUnique(nodes, front);
      PutAllIds(nodes, front, id);
      PutIds(PutAll(nodes, front), more[n], id);
      assert HasId(more, id) <==> HasId(front, id) || more[n].id == id by {
        if HasId(front, id) {
          var i :| 0 <= i < n && front[i].id == id;
          assert more[i].id == id;
        }
        if HasId(more, id) {
          var i :| 0 <= i < |more| && more[i].id == id;
          if i < n { assert front[i].id == id; }
        }
      }
    }
  }

  lemma {:induction false} PutAllLinks(nodes: seq<StructureNode>, more: seq<StructureNode>, id: string, link: Link)
    requires UniqueIds(nodes)
    ensures HasLink(PutAll(nodes, more), id, link) <==> HasLink(nodes, id, link) || HasLink(more, id, link)
  {
    if more != [] {
      var n := |more| - 1;
      var front := more[..n];
      PutAllUnique(nodes, front);
      PutAllLinks(nodes, front, id, link);
      PutLinks(PutAll(nodes, front), more[n], id, link);
      assert HasLink(more, id, link) <==> HasLink(front, id, link) || (more[n].id == id && link in more[n].links) by {
        if HasLink(front, id, link) {
          var i :| 0 <= i < n && front[i].id == id && link in front[i].links;
          assert more[i].id == id && link in more[i].links;
        }
        if HasLink(more, id, link) {
          var i :| 0 <= i < |more| && more[i].id == id && link in more[i].links;
          if i < n { assert front[i].id == id && link in front[i].links; }
        }
      }
    }
  }

  lemma BodySnoc(front: seq<StructureNode>, last: StructureNode, body: StructureNode)
    requires HasBody(front, body) || last.(links := []) == body
    ensures HasBody(front + [last], body)
  {
    var all := front + [last];
    if HasBody(front, body) {
      var i :| 0 <= i < |front| && front[i].(links := []) == body;
      assert all[i] == front[i];
    } else {
      assert all[|front|] == last;
    }
  }

  lemma BodyLast(front: seq<StructureNode>, last: StructureNode, body: StructureNode)
    requires HasBody(front + [last], body)
    ensures HasBody(front, body) || last.(links := []) == body
  {
    var all := front + [last];
    var i :| 0 <= i < |all| && all[i].(links := []) == body;
    if i < |front| {
      assert front[i] == all[i];
    }
  }

  lemma {:induction false} PutAllBodies(nodes: seq<StructureNode>, more: seq<StructureNode>, body: StructureNode)
    requires UniqueIds(nodes) && HasBody(PutAll(nodes, more), body)
    ensures HasBody(nodes, body) || HasBody(more, body)
  {
    if more != [] {
      var front, last := more[..|more| - 1], more[|more| - 1];
      PutAllUnique(nodes, front);
      PutBody(PutAll(nodes, front), last, body);
      if last.(links := []) != body {
        PutAllBodies(nodes, front, body);
      }
      if !HasBody(nodes, body) {
        BodySnoc(front, last, body);
        assert more == front + [last];
      }
    }
  }

  /** Every node of this id has this content. */
  ghost predicate OnlyBody(nodes: seq<StructureNode>, body: StructureNode) {
    forall i :: 0 <= i < |nodes| && nodes[i].id == body.id ==> nodes[i].(links := []) == body
  }

  lemma PutBodyStays(nodes: seq<StructureNode>, node: StructureNode, body: StructureNode)
    requires UniqueIds(nodes) && (node.id == body.id ==> node.(links := []) == body)
    requires HasBody(nodes, body) || node.(links := []) == body
    ensures HasBody(Put(nodes, node), body)
  {
    PutShape(nodes, node);
    var r, k := Put(nodes, node), Slot(nodes, node.id);
    if node.(links := []) == body {
      assert r[k].(links := []) == body;
    } else {
      var i :| 0 <= i < |nodes| && nodes[i].(links := []) == body;
      assert nodes[i].id == body.id && i != k;
      assert r[i].(links := []) == body;
    }
  }

  /** Content that the added nodes do not dispute survives. */
  lemma {:induction false} PutAllBodiesStay(nodes: seq<StructureNode>, more: seq<StructureNode>, body: StructureNode)
    requires UniqueIds(nodes) && OnlyBody(more, body) && (HasBody(nodes, body) || HasBody(more, body))
    ensures HasBody(PutAll(nodes, more), body)
  {
    if more != [] {
      var front, last := more[..|more| - 1], more[|more| - 1];
      PutAllUnique(nodes, front);
      assert more == front + [last];
      if HasBody(more, body) {
        BodyLast(front, last, body);
      }
      if HasBody(nodes, body) || HasBody(front, body) {
        PutAllBodiesStay(nodes, front, body);
      }
      PutBodyStays(PutAll(nodes, front), last, body);
    }
  }

  // ---- document order ---------------------------------------------------------------------------------------

  ghost predicate NodesSorted(nodes: seq<StructureNode>) {
    forall i, j :: 0 <= i < j < |nodes| ==> NodeBy(nodes[i], nodes[j])
  }

  function InsertNode(nodes: seq<StructureNode>, node: StructureNode): seq<StructureNode> {
    if nodes == [] then [node]
    else if NodeBy(nodes[|nodes| - 1], node) then nodes + [node]
    else InsertNode(nodes[..|nodes| - 1], node) + [nodes[|nodes| - 1]]
  }

  /** `sorted(nodes, key=(ordinal, node_id))`. */
  function SortNodes(nodes: seq<StructureNode>): seq<StructureNode> {
    if nodes == [] then [] else InsertNode(SortNodes(nodes[..|nodes| - 1]), nodes[|nodes| - 1])
  }

  /** The same nodes, each once. */
  ghost predicate Rearranged(a: seq<StructureNode>, b: seq<StructureNode>) {
    |a| == |b| && forall n :: n in a <==> n in b
  }

  lemma {:induction false} InsertNodeMembers(nodes: seq<StructureNode>, node: StructureNode)
    ensures Rearranged(InsertNode(nodes, node), nodes + [node])
  {
    if nodes != [] {
      var n := |nodes| - 1;
      assert nodes == nodes[..n] + [nodes[n]];
      InsertNodeMembers(nodes[..n], node);
    }
  }

  lemma {:induction false} InsertNodeSorted(nodes: seq<StructureNode>, node: StructureNode)
    requires NodesSorted(nodes)
    ensures NodesSorted(InsertNode(nodes, node))
  {
    if nodes != [] {
      var n := |nodes| - 1;
      var front, last := nodes[..n], nodes[n];
      if NodeBy(last, node) {
        forall i | 0 <= i < n ensures NodeBy(nodes[i], node) {
          NodeByOrder(nodes[i], last, node);
        }
      } else {
        InsertNodeSorted(front, node);
        var r := InsertNode(front, node);
        InsertNodeMembers(front, node);
        NodeByOrder(last, node, last);
        forall i | 0 <= i < |r| ensures NodeBy(r[i], last) {
          assert r[i] in r && r[i] in front + [node];
        }
      }
    }
  }

  lemma {:induction false} SortNodesFacts(nodes: seq<StructureNode>)
    ensures Rearranged(SortNodes(nodes), nodes) && NodesSorted(SortNodes(nodes))
  {
    if nodes != [] {
      var front, last := nodes[..|nodes| - 1], nodes[|nodes| - 1];
      SortNodesFacts(front);
      InsertNodeMembers(SortNodes(front), last);
      InsertNodeSorted(SortNodes(front), last);
      assert nodes == front + [last];
    }
  }

  lemma {:induction false} InsertNodeUnique(nodes: seq<StructureNode>, node: StructureNode)
    requires UniqueIds(nodes) && !HasId(nodes, node.id)
    ensures UniqueIds(InsertNode(nodes, node))
  {
    if nodes != [] {
      var n := |nodes| - 1;
      var front := nodes[..n];
      if !NodeBy(nodes[n], node) {
        InsertNodeUnique(front, node);
        InsertNodeMembers(front, node);
        var r := InsertNode(front, node);
        forall i | 0 <= i < |r| ensures r[i].id != nodes[n].id {
          assert r[i] in r && r[i] in front + [node];
        }
      }
    }
  }

  lemma {:induction false} SortNodesUnique(nodes: seq<StructureNode>)
    requires UniqueIds(nodes)
    ensures UniqueIds(SortNodes(nodes))
  {
    if nodes != [] {
      var n := |nodes| - 1;
      var front := nodes[..n];
      SortNodesUnique(front);
      SortNodesFacts(front);
      RearrangedSame(SortNodes(front), front, nodes[n].id);
      InsertNodeUnique(SortNodes(front), nodes[n]);
    }
  }

  lemma RearrangedSame(a: seq<StructureNode>, b: seq<StructureNode>, id: string)
    requires Rearranged(a, b)
    ensures HasId(a, id) <==> HasId(b, id)
    ensures forall link :: HasLink(a, id, link) <==> HasLink(b, id, link)
    ensures forall body :: HasBody(a, body) <==> HasBody(b, body)
  {
    RearrangedHas(a, b, id);
    RearrangedHas(b, a, id);
  }

  lemma RearrangedHas(a: seq<StructureNode>, b: seq<StructureNode>, id: string)
    requires Rearranged(a, b)
    ensures HasId(a, id) ==> HasId(b, id)
    ensures forall link :: HasLink(a, id, link) ==> HasLink(b, id, link)
    ensures forall body :: HasBody(a, body) ==> HasBody(b, body)
  {
    forall i | 0 <= i < |a| ensures exists j :: 0 <= j < |b| && b[j] == a[i] {
      assert a[i] in a && a[i] in b;
    }
  }

  // ---- bundles ------------------------------------------------------------------------------------------------

  function PutMatch(matches: seq<Match>, m: Match): seq<Match> {
    var k := MatchSlot(matches, m.node.id);
    if k < |matches| then matches[k := m] else matches + [m]
  }

  function MatchSlot(matches: seq<Match>, id: string): (k: nat)
    ensures k <= |matches| && (k < |matches| ==> matches[k].node.id == id)
    ensures k == |matches| ==> forall i :: 0 <= i < |matches| ==> matches[i].node.id != id
  {
    if matches == [] then 0
    else
      var k := MatchSlot(matches[..|matches| - 1], id);
      if k < |matches| - 1 then k else if matches[|matches| - 1].node.id == id then |matches| - 1 else |matches|
  }

  function PutMatches(matches: seq<Match>, more: seq<Match>): seq<Match> {
    if more == [] then matches else PutMatch(PutMatches(matches, more[..|more| - 1]), more[|more| - 1])
  }

  ghost predicate HasMatch(matches: seq<Match>, id: string) {
    exists i :: 0 <= i < |matches| && matches[i].node.id == id
  }

  lemma {:induction false} PutMatchesHas(matches: seq<Match>, more: seq<Match>, id: string)
    ensures HasMatch(PutMatches(matches, more), id) <==> HasMatch(matches, id) || HasMatch(more, id)
  {
    if more != [] {
      var n := |more| - 1;
      var front := more[..n];
      PutMatchesHas(matches, front, id);
      var before, r := PutMatches(matches, front), PutMatches(matches, more);
      var k := MatchSlot(before, more[n].node.id);
      assert r[k].node.id == more[n].node.id;
      assert forall i :: 0 <= i < |before| ==> r[i].node.id == before[i].node.id;
      assert forall i :: 0 <= i < n ==> front[i] == more[i];
    }
  }

  predicate IsNotice(nodes: seq<StructureNode>, id: string) {
    var k := Slot(nodes, id);
    k < |nodes| && (nodes[k].major == Notice || nodes[k].major == Mixed)
  }

  function NoticeIds(nodes: seq<StructureNode>): set<string> {
    (set i, link | 0 <= i < |nodes| && link in nodes[i].links && link.kind == AppliesTo && IsNotice(nodes, link.from) :: link.from)
    + (set i, link | 0 <= i < |nodes| && link in nodes[i].links && link.kind == AppliesTo && IsNotice(nodes, link.to) :: link.to)
  }

  /** An end of an APPLIES_TO link of one of the nodes. */
  ghost predicate AppliedEnd(nodes: seq<StructureNode>, id: string) {
    exists i, link :: 0 <= i < |nodes| && link in nodes[i].links && link.kind == AppliesTo && (id == link.from || id == link.to)
  }

  /** Counted are the notice and mixed nodes at either end of an APPLIES_TO link. */
  lemma NoticeIdsMean(nodes: seq<StructureNode>, id: string)
    requires UniqueIds(nodes)
    ensures id in NoticeIds(nodes) <==>
      AppliedEnd(nodes, id)
      && exists k :: 0 <= k < |nodes| && nodes[k].id == id && (nodes[k].major == Notice || nodes[k].major == Mixed)
  {
    var k := Slot(nodes, id);
    if exists j :: 0 <= j < |nodes| && nodes[j].id == id {
      var j :| 0 <= j < |nodes| && nodes[j].id == id;
      assert j == k;
    }
  }

  predicate AllKnown(matches: seq<Match>, nodes: seq<StructureNode>) {
    forall i :: 0 <= i < |matches| ==> Slot(nodes, matches[i].node.id) < |nodes|
  }

  /** Each match shows the merged node. */
  function Refresh(matches: seq<Match>, nodes: seq<StructureNode>): (r: seq<Match>)
    requires AllKnown(matches, nodes)
    ensures |r| == |matches|
    ensures forall i :: 0 <= i < |r| ==> r[i].node in nodes && r[i].node.id == matches[i].node.id
  {
    if matches == [] then []
    else
      var last := matches[|matches| - 1];
      Refresh(matches[..|matches| - 1], nodes) + [last.(node := nodes[Slot(nodes, last.node.id)])]
  }

  /** A bundle that stands alone: ids are unique, no link leads out of it, every match is one of
      its nodes. Clause groups are of this form, and merging keeps it. */
  ghost predicate BundleOk(b: Bundle) {
    && UniqueIds(b.nodes) && NoDangling(b.nodes)
    && forall id :: HasMatch(b.matches, id) ==> HasId(b.nodes, id)
  }

  function MergeNodes(previous: Bundle, group: Bundle): seq<StructureNode> {
    SortNodes(PutAll(previous.nodes, group.nodes))
  }

  lemma MergeNodesFacts(previous: Bundle, group: Bundle)
    requires UniqueIds(previous.nodes)
    ensures var nodes := MergeNodes(previous, group);
      && UniqueIds(nodes) && NodesSorted(nodes)
      && (forall id :: HasId(nodes, id) <==> HasId(previous.nodes, id) || HasId(group.nodes, id))
      && (forall id, link :: HasLink(nodes, id, link) <==> HasLink(previous.nodes, id, link) || HasLink(group.nodes, id, link))
      && (forall body :: HasBody(nodes, body) ==> HasBody(previous.nodes, body) || HasBody(group.nodes, body))
  {
    var nodes, all := MergeNodes(previous, group), PutAll(previous.nodes, group.nodes);
    PutAllUnique(previous.nodes, group.nodes);
    SortNodesUnique(all);
    SortNodesFacts(all);
    forall id ensures HasId(nodes, id) <==> HasId(previous.nodes, id) || HasId(group.nodes, id) {
      RearrangedSame(nodes, all, id);
      PutAllIds(previous.nodes, group.nodes, id);
    }
    forall id, link ensures HasLink(nodes, id, link) <==> HasLink(previous.nodes, id, link) || HasLink(group.nodes, id, link) {
      RearrangedSame(nodes, all, id);
      PutAllLinks(previous.nodes, group.nodes, id, link);
    }
    forall body | HasBody(nodes, body) ensures HasBody(previous.nodes, body) || HasBody(group.nodes, body) {
      RearrangedSame(nodes, all, "");
      PutAllBodies(previous.nodes, group.nodes, body);
    }
  }

  lemma MergeNodesBodies(previous: Bundle, group: Bundle, body: StructureNode)
    requires UniqueIds(previous.nodes) && OnlyBody(group.nodes, body)
    requires HasBody(previous.nodes, body) || HasBody(group.nodes, body)
    ensures HasBody(MergeNodes(previous, group), body)
  {
    var all := PutAll(previous.nodes, group.nodes);
    PutAllBodiesStay(previous.nodes, group.nodes, body);
    SortNodesFacts(all);
    RearrangedSame(MergeNodes(previous, group), all, "");
  }

  lemma MergeNoDangling(previous: Bundle, group: Bundle)
    requires UniqueIds(previous.nodes) && NoDangling(previous.nodes) && NoDangling(group.nodes)
    ensures NoDangling(MergeNodes(previous, group))
  {
    MergeNodesFacts(previous, group);
    var nodes := MergeNodes(previous, group);
    forall i, link | 0 <= i < |nodes| && link in nodes[i].links
      ensures HasId(nodes, link.from) && HasId(nodes, link.to)
    {
      assert HasLink(nodes, nodes[i].id, link);
    }
  }

  /** The replaced bundle of a contract that is already present. */
  function MergeBundle(previous: Bundle, group: Bundle): (r: Bundle)
    requires BundleOk(previous) && BundleOk(group)
    ensures r.contract == previous.contract && BundleOk(r)
    ensures r.nodes == MergeNodes(previous, group)
    ensures forall id :: HasMatch(r.matches, id) <==> HasMatch(previous.matches, id) || HasMatch(group.matches, id)
  {
    var nodes := MergeNodes(previous, group);
    var matches := PutMatches(previous.matches, group.matches);
    MergeReady(previous, group);
    var fresh_ := Refresh(matches, nodes);
    MergeMatches(previous, group, fresh_);
    Bundle(previous.contract, fresh_, nodes, |NoticeIds(nodes)|,
           if |nodes| > |matches| then |nodes| - |matches| else 0)
  }

  lemma MergeReady(previous: Bundle, group: Bundle)
    requires BundleOk(previous) && BundleOk(group)
    ensures AllKnown(PutMatches(previous.matches, group.matches), MergeNodes(previous, group))
    ensures UniqueIds(MergeNodes(previous, group)) && NoDangling(MergeNodes(previous, group))
  {
    var matches, nodes := PutMatches(previous.matches, group.matches), MergeNodes(previous, group);
    MergeNodesFacts(previous, group);
    MergeNoDangling(previous, group);
    forall i | 0 <= i < |matches| ensures Slot(nodes, matches[i].node.id) < |nodes| {
      PutMatchesHas(previous.matches, group.matches, matches[i].node.id);
      assert HasId(nodes, matches[i].node.id);
    }
  }

  lemma MergeMatches(previous: Bundle, group: Bundle, r: seq<Match>)
    requires BundleOk(previous) && BundleOk(group)
    requires var matches := PutMatches(previous.matches, group.matches);
      |r| == |matches| && forall i :: 0 <= i < |r| ==> r[i].node.id == matches[i].node.id
    ensures forall id :: HasMatch(r, id) <==> HasMatch(previous.matches, id) || HasMatch(group.matches, id)
    ensures forall id :: HasMatch(r, id) ==> HasId(MergeNodes(previous, group), id)
  {
    var matches := PutMatches(previous.matches, group.matches);
    MergeNodesFacts(previous, group);
    forall id ensures HasMatch(r, id) <==> HasMatch(previous.matches, id) || HasMatch(group.matches, id) {
      PutMatchesHas(previous.matches, group.matches, id);
      if HasMatch(matches, id) {
        var i :| 0 <= i < |matches| && matches[i].node.id == id;
        assert r[i].node.id == id;
      }
    }
  }
}
