/** Building the map units of every active contract: the whole contract when its prompt fits,
    else its major sections, and the proof that no page text is lost or repeated. */
module Corpus {
  import opened Text
  import opened Evidence
  import opened Reduction
  import opened Packing

  datatype PageText = PageText(page: nat, text: string)

  /** A canonical span row, in `ORDER BY page,source_start,source_end,node_id` order. */
  datatype SpanRow = SpanRow(node: string, page: nat, start: int, end: int)

  datatype Node = Node(parent: Option<string>, kind: string)

  datatype Contract = Contract(id: string, pages: seq<PageText>, nodes: map<string, Node>, spans: seq<SpanRow>)

  datatype Section = Section(key: Option<string>, sources: seq<Source>) {
    function Scope(): Scope { if key.None? then Unclassified else MajorSection(key.value) }
  }

  /** What the page and span queries guarantee. */
  ghost predicate PagesAscend(pages: seq<PageText>) {
    forall i, j :: 0 <= i < j < |pages| ==> pages[i].page < pages[j].page
  }

  predicate RowBefore(a: SpanRow, b: SpanRow) {
    a.page < b.page || (a.page == b.page && a.start <= b.start)
  }

  ghost predicate RowsAscend(rows: seq<SpanRow>) {
    forall i, j :: 0 <= i < j < |rows| ==> RowBefore(rows[i], rows[j])
  }

  // ---- the section of a node --------------------------------------------------------------------------

  /** `_nearest_major_section`, with the nodes already visited. */
  function NearestFrom(nodes: map<string, Node>, current: Option<string>, visited: set<string>): Result<Option<string>>
    decreases |nodes.Keys - visited|
  {
    if current.None? then Ok(None)
    else if current.value in visited then Err(ParentCycle)
    else if current.value !in nodes then Err(LostParent)
    else if nodes[current.value].kind == "MAJOR_SECTION" then Ok(current)
    else
      assert nodes.Keys - (visited + {current.value}) == (nodes.Keys - visited) - {current.value};
      NearestFrom(nodes, nodes[current.value].parent, visited + {current.value})
  }

  /** Consecutive parents, with no major section before the last. */
  ghost predicate ParentPath(nodes: map<string, Node>, path: seq<string>) {
    && path != []
    && forall i {:trigger path[i]} :: 0 <= i < |path| - 1 ==>
      path[i] in nodes && nodes[path[i]].kind != "MAJOR_SECTION" && nodes[path[i]].parent == Some(path[i + 1])
  }

  /** How the walk along a path ends: at a major section, above the top, at a lost parent, or where it
      has been before. */
  ghost predicate PathEnds(nodes: map<string, Node>, path: seq<string>, r: Result<Option<string>>)
    requires path != []
  {
    var n := |path| - 1;
    var last := path[n];
    match r
    case Ok(found) =>
      last in nodes
      && (if found.Some? then found.value == last && nodes[last].kind == "MAJOR_SECTION"
          else nodes[last].kind != "MAJOR_SECTION" && nodes[last].parent.None?)
    case Err(error) => (error == LostParent && last !in nodes) || (error == ParentCycle && last in path[..n])
  }

  lemma PathGrows(nodes: map<string, Node>, path: seq<string>, next: string)
    requires ParentPath(nodes, path)
    requires var last := path[|path| - 1];
      last in nodes && nodes[last].kind != "MAJOR_SECTION" && nodes[last].parent == Some(next)
    ensures ParentPath(nodes, path + [next])
  {
  }

  /** `visited` are the nodes of the path before the last. */
  ghost predicate Walked(path: seq<string>, visited: set<string>)
    requires path != []
  {
    forall x :: x in visited <==> x in path[..|path| - 1]
  }

  lemma {:induction false} WalkedOn(path: seq<string>, visited: set<string>, next: string)
    requires path != [] && Walked(path, visited)
    ensures Walked(path + [next], visited + {path[|path| - 1]})
  {
    var front := path[..|path| - 1];
    assert (path + [next])[..|path|] == path == front + [path[|path| - 1]];
  }

  lemma {:induction false} WalkStops(nodes: map<string, Node>, path: seq<string>, visited: set<string>)
    requires path != [] && Walked(path, visited)
    requires var last := path[|path| - 1];
      last in visited || last !in nodes || nodes[last].kind == "MAJOR_SECTION" || nodes[last].parent.None?
    ensures PathEnds(nodes, path, NearestFrom(nodes, Some(path[|path| - 1]), visited))
  {
    var last := path[|path| - 1];
    if last in nodes && last !in visited && nodes[last].kind != "MAJOR_SECTION" {
      assert NearestFrom(nodes, None, visited + {last}) == Ok(None);
    }
  }

  /** The walk follows the parent path to its end. */
  lemma {:induction false} NearestMeans(nodes: map<string, Node>, path: seq<string>, visited: set<string>) returns (full: seq<string>)
    requires ParentPath(nodes, path) && Walked(path, visited)
    ensures ParentPath(nodes, full) && path <= full
    ensures PathEnds(nodes, full, NearestFrom(nodes, Some(path[|path| - 1]), visited))
    decreases |nodes.Keys - visited|
  {
    var last := path[|path| - 1];
    if last in visited || last !in nodes || nodes[last].kind == "MAJOR_SECTION" || nodes[last].parent.None? {
      WalkStops(nodes, path, visited);
      full := path;
    } else {
      var next := nodes[last].parent.value;
      assert nodes.Keys - (visited + {last}) == (nodes.Keys - visited) - {last};
      PathGrows(nodes, path, next);
      WalkedOn(path, visited, next);
      full := NearestMeans(nodes, path + [next], visited + {last});
    }
  }

  /** `_nearest_major_section`: the first major section on the parent path. */
  method NearestMajorSection(node: string, nodes: map<string, Node>) returns (r: Result<Option<string>>, ghost path: seq<string>)
    ensures r == NearestFrom(nodes, Some(node), {})
    ensures ParentPath(nodes, path) && path[0] == node && PathEnds(nodes, path, r)
  {
    path := NearestMeans(nodes, [node], {});
    var current := Some(node);
    var visited: set<string> := {};
    while current.Some?
      invariant NearestFrom(nodes, Some(node), {}) == NearestFrom(nodes, current, visited)
      decreases |nodes.Keys - visited|
    {
      if current.value in visited {
        r := Err(ParentCycle);
        return;
      }
      if current.value !in nodes {
        r := Err(LostParent);
        return;
      }
      assert nodes.Keys - (visited + {current.value}) == (nodes.Keys - visited) - {current.value};
      visited := visited + {current.value};
      if nodes[current.value].kind == "MAJOR_SECTION" {
        r := Ok(current);
        return;
      }
      current := nodes[current.value].parent;
    }
    r := Ok(None);
  }

  // ---- grouping spans by section --------------------------------------------------------------------------

  function PageIndex(pages: seq<PageText>, page: nat): (k: nat)
    ensures k <= |pages| && (k < |pages| ==> pages[k].page == page)
    ensures k == |pages| ==> forall i :: 0 <= i < |pages| ==> pages[i].page != page
  {
    if pages == [] then 0
    else
      var k := PageIndex(pages[..|pages| - 1], page);
      if k < |pages| - 1 then k
      else if pages[|pages| - 1].page == page then |pages| - 1
      else |pages|
  }

  /** The range of a row is a non-empty slice of an existing page. */
  predicate RowOk(pages: seq<PageText>, row: SpanRow) {
    var k := PageIndex(pages, row.page);
    k < |pages| && 0 <= row.start < row.end <= |pages[k].text|
  }

  function SourceOf(pages: seq<PageText>, row: SpanRow): Source
    requires RowOk(pages, row)
  {
    Source(row.page, row.start, pages[PageIndex(pages, row.page)].text[row.start..row.end])
  }

  function SectionIndex(sections: seq<Section>, key: Option<string>): (k: nat)
    ensures k <= |sections| && (k < |sections| ==> sections[k].key == key)
  {
    if sections == [] then 0
    else if sections[|sections| - 1].key == key then |sections| - 1
    else
      var k := SectionIndex(sections[..|sections| - 1], key);
      if k < |sections| - 1 then k else |sections|
  }

  /** Ranges of all sections that contain a position. */
  function SectionCount(sections: seq<Section>, page: nat, pos: nat): nat {
    if sections == [] then 0
    else SectionCount(sections[..|sections| - 1], page, pos) + CoverCount(sections[|sections| - 1].sources, page, pos)
  }

  function Grouped(sections: seq<Section>, key: Option<string>, s: Source): seq<Section> {
    var k := SectionIndex(sections, key);
    if k < |sections| then sections[k := Section(key, sections[k].sources + [s])]
    else sections + [Section(key, [s])]
  }

  lemma {:induction false} SectionUpdate(sections: seq<Section>, k: nat, s: Source, page: nat, pos: nat)
    requires k < |sections|
    ensures SectionCount(sections[k := Section(sections[k].key, sections[k].sources + [s])], page, pos)
         == SectionCount(sections, page, pos) + Hit(s, page, pos)
  {
    var n := |sections| - 1;
    var changed := sections[k := Section(sections[k].key, sections[k].sources + [s])];
    if k == n {
      assert changed[..n] == sections[..n];
      assert (sections[k].sources + [s])[..|sections[k].sources|] == sections[k].sources;
    } else {
      assert changed[..n] == sections[..n][k := Section(sections[k].key, sections[k].sources + [s])];
      SectionUpdate(sections[..n], k, s, page, pos);
    }
  }

  lemma GroupedCount(sections: seq<Section>, key: Option<string>, s: Source, page: nat, pos: nat)
    ensures SectionCount(Grouped(sections, key, s), page, pos) == SectionCount(sections, page, pos) + Hit(s, page, pos)
  {
    var k := SectionIndex(sections, key);
    if k < |sections| {
      SectionUpdate(sections, k, s, page, pos);
    } else {
      assert Grouped(sections, key, s)[..|sections|] == sections;
      assert CoverCount([s], page, pos) == Hit(s, page, pos) by { assert [s][..0] == []; }
    }
  }

  /** The ranges of the first `n` rows. */
  function RowSources(pages: seq<PageText>, rows: seq<SpanRow>): seq<Source>
    requires forall i :: 0 <= i < |rows| ==> RowOk(pages, rows[i])
  {
    if rows == [] then []
    else RowSources(pages, rows[..|rows| - 1]) + [SourceOf(pages, rows[|rows| - 1])]
  }

  /** Sections hold exactly the ranges of the rows, whatever their order. */
  ghost predicate SameCover(sections: seq<Section>, sources: seq<Source>) {
    forall page: nat, pos: nat :: SectionCount(sections, page, pos) == CoverCount(sources, page, pos)
  }

  lemma GroupedSame(sections: seq<Section>, sources: seq<Source>, key: Option<string>, s: Source)
    requires SameCover(sections, sources)
    ensures SameCover(Grouped(sections, key, s), sources + [s])
  {
    forall page: nat, pos: nat
      ensures SectionCount(Grouped(sections, key, s), page, pos) == CoverCount(sources + [s], page, pos)
    {
      GroupedCount(sections, key, s, page, pos);
      assert (sources + [s])[..|sources|] == sources;
    }
  }

  // ---- the coverage check of one page -------------------------------------------------------------------------

  predicate RowHit(row: SpanRow, pos: nat) { row.start <= pos < row.end }

  function RowCount(rows: seq<SpanRow>, pos: nat): nat {
    if rows == [] then 0
    else RowCount(rows[..|rows| - 1], pos) + (if RowHit(rows[|rows| - 1], pos) then 1 else 0)
  }

  ghost predicate RowsIn(text: string, rows: seq<SpanRow>) {
    && (forall i :: 0 <= i < |rows| ==> 0 <= rows[i].start < rows[i].end <= |text|)
    && StartsAscend(rows)
  }

  ghost predicate Disjoint(rows: seq<SpanRow>) {
    forall i, j :: 0 <= i < j < |rows| ==> rows[i].end <= rows[j].start
  }

  ghost predicate Reached(rows: seq<SpanRow>, pos: nat) {
    exists i :: 0 <= i < |rows| && RowHit(rows[i], pos)
  }

  ghost predicate AllReached(text: string, rows: seq<SpanRow>, bound: nat) {
    forall pos :: 0 <= pos < bound && pos < |text| && !IsSpace(text[pos]) ==> Reached(rows, pos)
  }

  /** The cursor loop over one page: it accepts exactly the pages whose ranges do not overlap and
      reach every character that is not white space. */
  method CheckPage(text: string, rows: seq<SpanRow>) returns (error: Option<PackError>)
    requires RowsIn(text, rows)
    ensures error.None? <==> Disjoint(rows) && AllReached(text, rows, |text|)
    ensures error.Some? ==> error.value == SpansOverlap || error.value == UncoveredText
  {
    var cursor := 0;
    for i := 0 to |rows|
      invariant Swept(text, rows, i, cursor)
    {
      var row := rows[i];
      if row.start < cursor {
        assert rows[i - 1].end > rows[i].start;
        return Some(SpansOverlap);
      }
      if !BlankRange(text, cursor, row.start) {
        var pos :| cursor <= pos < row.start && !IsSpace(text[pos]);
        NotReached(text, rows, i, pos);
        return Some(UncoveredText);
      }
      SweepStep(text, rows, i, cursor);
      cursor := row.end;
    }
    assert rows[..|rows|] == rows;
    if !BlankRange(text, cursor, |text|) {
      var pos :| cursor <= pos < |text| && !IsSpace(text[pos]);
      NotReached(text, rows, |rows|, pos);
      return Some(UncoveredText);
    }
    error := None;
  }

  /** The first `i` ranges are disjoint, end by `cursor`, and reach all text before it. */
  ghost predicate Swept(text: string, rows: seq<SpanRow>, i: nat, cursor: int) {
    && i <= |rows| && 0 <= cursor <= |text|
    && (if i == 0 then cursor == 0 else cursor == rows[i - 1].end)
    && Disjoint(rows[..i])
    && (forall k :: 0 <= k < i ==> rows[k].end <= cursor)
    && AllReached(text, rows, cursor)
  }

  lemma SweepStep(text: string, rows: seq<SpanRow>, i: nat, cursor: nat)
    requires RowsIn(text, rows) && i < |rows| && Swept(text, rows, i, cursor)
    requires cursor <= rows[i].start && BlankRange(text, cursor, rows[i].start)
    ensures Swept(text, rows, i + 1, rows[i].end)
  {
    forall pos | 0 <= pos < rows[i].end && !IsSpace(text[pos]) ensures Reached(rows, pos) {
      if rows[i].start <= pos { assert RowHit(rows[i], pos); }
    }
  }

  lemma NotReached(text: string, rows: seq<SpanRow>, i: nat, pos: nat)
    requires RowsIn(text, rows) && i <= |rows|
    requires forall k :: 0 <= k < i ==> rows[k].end <= pos
    requires i < |rows| ==> pos < rows[i].start
    ensures !Reached(rows, pos)
  {
    forall k | 0 <= k < |rows| ensures !RowHit(rows[k], pos) {
      if k > i { assert rows[i].start <= rows[k].start; }
    }
  }

  lemma {:induction false} DisjointCount(rows: seq<SpanRow>, pos: nat)
    requires Disjoint(rows) && forall i :: 0 <= i < |rows| ==> rows[i].start < rows[i].end
    ensures RowCount(rows, pos) == if Reached(rows, pos) then 1 else 0
  {
    if rows != [] {
      var n := |rows| - 1;
      var front := rows[..n];
      DisjointCount(front, pos);
      if Reached(front, pos) {
        var i :| 0 <= i < |front| && RowHit(front[i], pos);
        assert rows[i].end <= rows[n].start;
        assert RowHit(rows[i], pos);
      } else {
        assert forall i :: 0 <= i < n ==> rows[i] == front[i];
      }
    }
  }

  /** The rows of one page, in order. */
  function PageRows(rows: seq<SpanRow>, page: nat): seq<SpanRow> {
    if rows == [] then []
    else
      var front := PageRows(rows[..|rows| - 1], page);
      if rows[|rows| - 1].page == page then front + [rows[|rows| - 1]] else front
  }

  lemma {:induction false} PageRowsCount(pages: seq<PageText>, rows: seq<SpanRow>, page: nat, pos: nat)
    requires forall i :: 0 <= i < |rows| ==> RowOk(pages, rows[i])
    ensures CoverCount(RowSources(pages, rows), page, pos) == RowCount(PageRows(rows, page), pos)
  {
    if rows != [] {
      var n := |rows| - 1;
      PageRowsCount(pages, rows[..n], page, pos);
      var sources := RowSources(pages, rows);
      assert sources[..|sources| - 1] == RowSources(pages, rows[..n]);
      var front := PageRows(rows[..n], page);
      assert (front + [rows[n]])[..|front|] == front;
    }
  }

  lemma {:induction false} PageRowsMembers(rows: seq<SpanRow>, page: nat)
    ensures forall r :: r in PageRows(rows, page) ==> r in rows && r.page == page
  {
    if rows != [] {
      PageRowsMembers(rows[..|rows| - 1], page);
      assert rows == rows[..|rows| - 1] + [rows[|rows| - 1]];
    }
  }

  ghost predicate StartsAscend(rows: seq<SpanRow>) {
    forall i, j :: 0 <= i < j < |rows| ==> rows[i].start <= rows[j].start
  }

  lemma {:induction false} PageRowsSorted(rows: seq<SpanRow>, page: nat)
    requires RowsAscend(rows)
    ensures StartsAscend(PageRows(rows, page))
  {
    if rows != [] {
      var n := |rows| - 1;
      var front := PageRows(rows[..n], page);
      PageRowsSorted(rows[..n], page);
      PageRowsMembers(rows[..n], page);
      var ps := PageRows(rows, page);
      assert ps == if rows[n].page == page then front + [rows[n]] else front;
      forall i, j | 0 <= i < j < |ps| ensures ps[i].start <= ps[j].start {
        if j == |front| {
          assert ps[i] == front[i] && front[i] in front && front[i] in rows[..n] && front[i].page == page;
          var k :| 0 <= k < n && rows[k] == front[i];
          assert RowBefore(rows[k], rows[n]);
          assert ps[j] == rows[n] && rows[n].page == page;
        } else {
          assert ps[i] == front[i] && ps[j] == front[j];
        }
      }
    }
  }

  lemma PageRowsIn(pages: seq<PageText>, rows: seq<SpanRow>, k: nat)
    requires PagesAscend(pages) && RowsAscend(rows) && k < |pages|
    requires forall i :: 0 <= i < |rows| ==> RowOk(pages, rows[i])
    ensures RowsIn(pages[k].text, PageRows(rows, pages[k].page))
  {
    var ps := PageRows(rows, pages[k].page);
    PageRowsMembers(rows, pages[k].page);
    PageRowsSorted(rows, pages[k].page);
    forall i | 0 <= i < |ps| ensures 0 <= ps[i].start < ps[i].end <= |pages[k].text| {
      assert ps[i] in ps && ps[i] in rows;
      var j :| 0 <= j < |rows| && rows[j] == ps[i];
      assert RowOk(pages, rows[j]);
      var m := PageIndex(pages, ps[i].page);
      assert m == k;
    }
  }

  // ---- sections of a contract --------------------------------------------------------------------------------

  ghost predicate RowsOk(pages: seq<PageText>, rows: seq<SpanRow>) {
    forall i :: 0 <= i < |rows| ==> RowOk(pages, rows[i])
  }

  predicate StartsBy(a: Source, b: Source) {
    a.page < b.page || (a.page == b.page && a.start <= b.start)
  }

  /** Non-empty ranges, in start order. */
  ghost predicate Sorted(sources: seq<Source>) {
    && (forall i :: 0 <= i < |sources| ==> sources[i].text != [])
    && (forall i, j :: 0 <= i < j < |sources| ==> StartsBy(sources[i], sources[j]))
  }

  /** A range that is a slice of its page. */
  ghost predicate OnPage(pages: seq<PageText>, s: Source) {
    exists k :: 0 <= k < |pages| && pages[k].page == s.page && s.End() <= |pages[k].text|
                && s.text == pages[k].text[s.start..s.End()]
  }

  ghost predicate SectionOk(pages: seq<PageText>, sec: Section) {
    sec.sources != [] && Sorted(sec.sources) && forall i :: 0 <= i < |sec.sources| ==> OnPage(pages, sec.sources[i])
  }

  /** Every range so far starts by the given page position. */
  ghost predicate Until(sections: seq<Section>, row: SpanRow) {
    forall k, i :: 0 <= k < |sections| && 0 <= i < |sections[k].sources| ==>
      var s := sections[k].sources[i]; s.page < row.page || (s.page == row.page && s.start <= row.start)
  }

  ghost predicate SectionsOk(pages: seq<PageText>, sections: seq<Section>) {
    forall k :: 0 <= k < |sections| ==> SectionOk(pages, sections[k])
  }

  lemma {:induction false} GroupedOk(pages: seq<PageText>, sections: seq<Section>, key: Option<string>, row: SpanRow)
    requires RowOk(pages, row) && SectionsOk(pages, sections) && Until(sections, row)
    ensures var after := Grouped(sections, key, SourceOf(pages, row));
      SectionsOk(pages, after) && Until(after, row) && after != []
  {
    var s := SourceOf(pages, row);
    var after := Grouped(sections, key, s);
    assert OnPage(pages, s) by {
      var k := PageIndex(pages, row.page);
      assert s.text == pages[k].text[s.start..s.End()];
    }
    var j := SectionIndex(sections, key);
    forall k | 0 <= k < |after| ensures SectionOk(pages, after[k]) {
      if k == j < |sections| {
        assert SectionOk(pages, sections[k]);
      } else if k < |sections| {
        assert SectionOk(pages, sections[k]);
      }
    }
  }

  lemma UntilNext(sections: seq<Section>, a: SpanRow, b: SpanRow)
    requires Until(sections, a) && RowBefore(a, b)
    ensures Until(sections, b)
  {
  }

  /** Every row's node has a parent path that ends. */
  ghost predicate Placed(nodes: map<string, Node>, rows: seq<SpanRow>) {
    forall i :: 0 <= i < |rows| ==> NearestFrom(nodes, Some(rows[i].node), {}).Ok?
  }

  /** The sections of the rows: each range joins the section of its nearest major section. */
  ghost function Sections(pages: seq<PageText>, nodes: map<string, Node>, rows: seq<SpanRow>): seq<Section>
    requires RowsOk(pages, rows) && Placed(nodes, rows)
  {
    if rows == [] then []
    else
      var last := rows[|rows| - 1];
      Grouped(Sections(pages, nodes, rows[..|rows| - 1]), NearestFrom(nodes, Some(last.node), {}).value, SourceOf(pages, last))
  }

  /** After `i` rows: valid ranges, grouped without loss, all starting by the last row. */
  ghost predicate Grouping(pages: seq<PageText>, rows: seq<SpanRow>, i: nat, sections: seq<Section>) {
    && i <= |rows| && RowsOk(pages, rows[..i])
    && SectionsOk(pages, sections) && SameCover(sections, RowSources(pages, rows[..i]))
    && (if i == 0 then sections == [] else sections != [] && Until(sections, rows[i - 1]))
  }

  lemma {:induction false} GroupStep(pages: seq<PageText>, rows: seq<SpanRow>, i: nat, sections: seq<Section>, key: Option<string>)
    requires RowsAscend(rows) && i < |rows| && Grouping(pages, rows, i, sections) && RowOk(pages, rows[i])
    ensures Grouping(pages, rows, i + 1, Grouped(sections, key, SourceOf(pages, rows[i])))
  {
    if i > 0 {
      assert RowBefore(rows[i - 1], rows[i]);
      UntilNext(sections, rows[i - 1], rows[i]);
    }
    GroupedOk(pages, sections, key, rows[i]);
    GroupedSame(sections, RowSources(pages, rows[..i]), key, SourceOf(pages, rows[i]));
    assert rows[..i + 1][..i] == rows[..i];
  }

  lemma SectionsSnoc(pages: seq<PageText>, nodes: map<string, Node>, rows: seq<SpanRow>, i: nat)
    requires i < |rows| && RowsOk(pages, rows[..i]) && Placed(nodes, rows[..i])
    requires RowOk(pages, rows[i]) && NearestFrom(nodes, Some(rows[i].node), {}).Ok?
    ensures RowsOk(pages, rows[..i + 1]) && Placed(nodes, rows[..i + 1])
    ensures Sections(pages, nodes, rows[..i + 1])
         == Grouped(Sections(pages, nodes, rows[..i]), NearestFrom(nodes, Some(rows[i].node), {}).value, SourceOf(pages, rows[i]))
  {
    assert rows[..i + 1] == rows[..i] + [rows[i]];
    assert rows[..i + 1][..i] == rows[..i];
  }

  /** The grouping loop of `_major_section_sources`: it fails exactly on a bad range or on a node
      without a proper parent path. */
  method GroupRows(pages: seq<PageText>, nodes: map<string, Node>, rows: seq<SpanRow>)
    returns (r: Result<seq<Section>>)
    requires RowsAscend(rows)
    ensures r.Ok? <==> RowsOk(pages, rows) && Placed(nodes, rows)
    ensures r.Ok? ==> r.value == Sections(pages, nodes, rows) && Grouping(pages, rows, |rows|, r.value)
    ensures r == Err(BadRange) ==> !RowsOk(pages, rows)
    ensures r.Err? ==> r.error == BadRange || r.error == LostParent || r.error == ParentCycle
  {
    var sections: seq<Section> := [];
    var i := 0;
    while i < |rows|
      invariant 0 <= i <= |rows| && Grouping(pages, rows, i, sections)
      invariant Placed(nodes, rows[..i]) && sections == Sections(pages, nodes, rows[..i])
    {
      if !RowOk(pages, rows[i]) {
        return Err(BadRange);
      }
      var key, _ := NearestMajorSection(rows[i].node, nodes);
      if key.Err? {
        return Err(key.error);
      }
      GroupStep(pages, rows, i, sections, key.value);
      SectionsSnoc(pages, nodes, rows, i);
      sections := Grouped(sections, key.value, SourceOf(pages, rows[i]));
      i := i + 1;
    }
    assert rows[..|rows|] == rows;
    r := Ok(sections);
  }

  /** Each position at most once; each character that is not white space exactly once. */
  predicate OncePosition(text: string, pos: nat, count: nat)
    requires pos < |text|
  {
    count <= 1 && (!IsSpace(text[pos]) ==> count == 1)
  }

  ghost predicate PageOnce(p: PageText, rows: seq<SpanRow>) {
    Disjoint(PageRows(rows, p.page)) && AllReached(p.text, PageRows(rows, p.page), |p.text|)
  }

  /** The page loop of `_major_section_sources`. */
  method CheckPages(pages: seq<PageText>, rows: seq<SpanRow>) returns (error: Option<PackError>)
    requires PagesAscend(pages) && RowsAscend(rows) && RowsOk(pages, rows)
    ensures error.None? <==> forall k :: 0 <= k < |pages| ==> PageOnce(pages[k], rows)
    ensures error.Some? ==> error.value == SpansOverlap || error.value == UncoveredText
  {
    for k := 0 to |pages|
      invariant forall m :: 0 <= m < k ==> PageOnce(pages[m], rows)
    {
      PageRowsIn(pages, rows, k);
      error := CheckPage(pages[k].text, PageRows(rows, pages[k].page));
      if error.Some? {
        assert !PageOnce(pages[k], rows);
        return;
      }
    }
    error := None;
  }

  /** No position is covered twice, and no visible character is missed. */
  ghost predicate CoveredOnce(pages: seq<PageText>, sources: seq<Source>) {
    forall k, pos :: 0 <= k < |pages| && 0 <= pos < |pages[k].text| ==>
      OncePosition(pages[k].text, pos, CoverCount(sources, pages[k].page, pos))
  }

  lemma RowsCoverOnce(pages: seq<PageText>, rows: seq<SpanRow>)
    requires PagesAscend(pages) && RowsAscend(rows) && RowsOk(pages, rows)
    requires forall k :: 0 <= k < |pages| ==> PageOnce(pages[k], rows)
    ensures CoveredOnce(pages, RowSources(pages, rows))
  {
    forall k, pos | 0 <= k < |pages| && 0 <= pos < |pages[k].text|
      ensures OncePosition(pages[k].text, pos, CoverCount(RowSources(pages, rows), pages[k].page, pos))
    {
      assert PageOnce(pages[k], rows);
      PageRowsIn(pages, rows, k);
      PageRowsCount(pages, rows, pages[k].page, pos);
      DisjointCount(PageRows(rows, pages[k].page), pos);
    }
  }

  // ---- packing one after the other ---------------------------------------------------------------------------

  lemma {:induction false} FlattenSnoc<T>(ss: seq<seq<T>>, s: seq<T>)
    ensures Flatten(ss + [s]) == Flatten(ss) + s
  {
    if ss == [] {
      assert Flatten([s]) == s + Flatten([]);
    } else {
      assert (ss + [s])[1..] == ss[1..] + [s];
      FlattenSnoc(ss[1..], s);
    }
  }

  function Total<T>(ss: seq<seq<T>>): nat {
    if ss == [] then 0 else Total(ss[..|ss| - 1]) + |ss[|ss| - 1]|
  }

  lemma {:induction false} TotalLength<T>(ss: seq<seq<T>>)
    ensures |Flatten(ss)| == Total(ss)
  {
    if ss != [] {
      TotalLength(ss[..|ss| - 1]);
      FlattenSnoc(ss[..|ss| - 1], ss[|ss| - 1]);
      assert ss == ss[..|ss| - 1] + [ss[|ss| - 1]];
    }
  }

  /** `plan` packs the first items, each behind all units before it. */
  ghost predicate Chained<S, T>(packs: (S, nat, seq<T>) -> bool, items: seq<S>, first: nat, plan: seq<seq<T>>) {
    plan == []
    || (var n := |plan| - 1;
        n < |items| && Chained(packs, items, first, plan[..n]) && packs(items[n], first + Total(plan[..n]), plan[n]))
  }

  /** `plan` packs all items. */
  ghost predicate PacksAll<S, T>(packs: (S, nat, seq<T>) -> bool, items: seq<S>, first: nat, plan: seq<seq<T>>) {
    |plan| == |items| && Chained(packs, items, first, plan)
  }

  /** The first items are packed, in the one way there is. */
  ghost predicate OnlyWay<S(!new), T(!new)>(packs: (S, nat, seq<T>) -> bool, items: seq<S>, first: nat, plan: seq<seq<T>>) {
    Chained(packs, items, first, plan) && forall other :: PacksAll(packs, items, first, other) ==> plan <= other
  }

  ghost predicate NoWay<S(!new), T(!new)>(packs: (S, nat, seq<T>) -> bool, items: seq<S>, first: nat) {
    forall other :: !PacksAll(packs, items, first, other)
  }

  lemma {:induction false} ChainedAt<S, T>(packs: (S, nat, seq<T>) -> bool, items: seq<S>, first: nat, plan: seq<seq<T>>, k: nat)
    requires Chained(packs, items, first, plan) && k < |plan|
    ensures k < |items| && packs(items[k], first + Total(plan[..k]), plan[k])
    decreases |plan|
  {
    var n := |plan| - 1;
    if k < n {
      ChainedAt(packs, items, first, plan[..n], k);
      assert plan[..n][..k] == plan[..k];
    }
  }

  lemma {:induction false} TotalSnoc<T>(ss: seq<seq<T>>, s: seq<T>)
    ensures Total(ss + [s]) == Total(ss) + |s|
  {
    assert (ss + [s])[..|ss|] == ss;
  }

  lemma {:induction false} ChainedSnoc<S, T>(packs: (S, nat, seq<T>) -> bool, items: seq<S>, first: nat, plan: seq<seq<T>>,
                                               n: nat, units: seq<T>)
    requires Chained(packs, items, first, plan) && |plan| < |items|
    requires n == first + Total(plan) && packs(items[|plan|], n, units)
    ensures Chained(packs, items, first, plan + [units])
  {
    assert (plan + [units])[..|plan|] == plan;
  }

  /** A way to pack all items continues with what packs the next one. */
  lemma {:induction false} NextOf<S, T>(packs: (S, nat, seq<T>) -> bool, items: seq<S>, first: nat, plan: seq<seq<T>>, all: seq<seq<T>>)
    requires PacksAll(packs, items, first, all) && plan <= all && |plan| < |items|
    ensures packs(items[|plan|], first + Total(plan), all[|plan|])
  {
    ChainedAt(packs, items, first, all, |plan|);
    assert all[..|plan|] == plan;
  }

  /** `more` is what packs the item, or says that nothing does. */
  ghost predicate Decides<S, T(!new)>(packs: (S, nat, seq<T>) -> bool, item: S, n: nat, more: Result<seq<T>>) {
    forall units :: packs(item, n, units) <==> more == Ok(units)
  }

  lemma {:induction false} DecidedNext<S, T(!new)>(packs: (S, nat, seq<T>) -> bool, items: seq<S>, first: nat, plan: seq<seq<T>>,
                                n: nat, more: Result<seq<T>>, all: seq<seq<T>>)
    requires PacksAll(packs, items, first, all) && plan <= all && |plan| < |items|
    requires n == first + Total(plan) && Decides(packs, items[|plan|], n, more)
    ensures more.Ok? && plan + [more.value] <= all
  {
    NextOf(packs, items, first, plan, all);
    assert packs(items[|plan|], n, all[|plan|]);
  }

  /** What packing one item makes of the items before it: one more, or no way to pack them all. */
  lemma {:induction false} OneMore<S(!new), T(!new)>(packs: (S, nat, seq<T>) -> bool, items: seq<S>, first: nat, plan: seq<seq<T>>,
                                  n: nat, more: Result<seq<T>>)
    requires |plan| < |items| && OnlyWay(packs, items, first, plan)
    requires n == first + Total(plan) && Decides(packs, items[|plan|], n, more)
    ensures more.Ok? ==> OnlyWay(packs, items, first, plan + [more.value])
    ensures more.Err? ==> NoWay(packs, items, first)
  {
    forall all: seq<seq<T>> | PacksAll(packs, items, first, all) ensures more.Ok? && plan + [more.value] <= all {
      DecidedNext(packs, items, first, plan, n, more, all);
    }
    if more.Ok? {
      assert packs(items[|plan|], n, more.value);
      ChainedSnoc(packs, items, first, plan, n, more.value);
    }
  }

  /** Once all items are packed, that is the one plan for them. */
  lemma {:induction false} OnlyPlan<S(!new), T(!new)>(packs: (S, nat, seq<T>) -> bool, items: seq<S>, first: nat, plan: seq<seq<T>>)
    requires |plan| == |items| && OnlyWay(packs, items, first, plan)
    ensures forall other :: PacksAll(packs, items, first, other) <==> other == plan
  {
    forall other: seq<seq<T>> | PacksAll(packs, items, first, other) ensures other == plan {
      assert plan <= other;
    }
  }

  // ---- units of a contract -------------------------------------------------------------------------------------

  /** Sections together with their packed units so far: same coverage. */
  ghost predicate SameUnits(sections: seq<Section>, units: seq<MapUnit>) {
    forall page: nat, pos: nat :: SectionCount(sections, page, pos) == CoverCount(UnitSources(units), page, pos)
  }

  /** What every unit of a contract satisfies. */
  ghost predicate UnitOf(c: Contract, query: string, maxInput: nat, u: MapUnit) {
    && u.contract == c.id && 0 < |u.sources| <= MAX_SOURCE_REFS_PER_UNIT
    && MapPromptCharacters(query, u) <= maxInput
    && Ordered(u.sources)
    && (forall i :: 0 <= i < |u.sources| ==> OnPage(c.pages, u.sources[i]))
  }

  ghost predicate UnitsOf(c: Contract, query: string, maxInput: nat, units: seq<MapUnit>) {
    forall k :: 0 <= k < |units| ==> UnitOf(c, query, maxInput, units[k])
  }

  lemma {:induction false} CoverTwo(sources: seq<Source>, i: nat, j: nat, page: nat, pos: nat)
    requires i < j < |sources| && Hit(sources[i], page, pos) == 1 && Hit(sources[j], page, pos) == 1
    ensures CoverCount(sources, page, pos) >= 2
  {
    var n := |sources| - 1;
    if j < n {
      CoverTwo(sources[..n], i, j, page, pos);
    } else {
      CoverOne(sources[..n], i, page, pos);
    }
  }

  lemma {:induction false} CoverOne(sources: seq<Source>, i: nat, page: nat, pos: nat)
    requires i < |sources| && Hit(sources[i], page, pos) == 1
    ensures CoverCount(sources, page, pos) >= 1
  {
    if i < |sources| - 1 {
      CoverOne(sources[..|sources| - 1], i, page, pos);
    }
  }

  lemma {:induction false} SectionPart(sections: seq<Section>, k: nat, page: nat, pos: nat)
    requires k < |sections|
    ensures CoverCount(sections[k].sources, page, pos) <= SectionCount(sections, page, pos)
  {
    if k < |sections| - 1 {
      SectionPart(sections[..|sections| - 1], k, page, pos);
    }
  }

  lemma OverlapTwice(sections: seq<Section>, k: nat, i: nat, j: nat)
    requires k < |sections| && i < j < |sections[k].sources|
    requires var a, b := sections[k].sources[i], sections[k].sources[j];
      b.text != [] && a.page == b.page && a.start <= b.start < a.End()
    ensures var b := sections[k].sources[j]; SectionCount(sections, b.page, b.start) >= 2
  {
    var b := sections[k].sources[j];
    CoverTwo(sections[k].sources, i, j, b.page, b.start);
    SectionPart(sections, k, b.page, b.start);
  }

  ghost predicate AtMostOnce(pages: seq<PageText>, sections: seq<Section>) {
    forall m, pos :: 0 <= m < |pages| && 0 <= pos < |pages[m].text| ==> SectionCount(sections, pages[m].page, pos) <= 1
  }

  lemma StartOnce(pages: seq<PageText>, sections: seq<Section>, s: Source)
    requires AtMostOnce(pages, sections) && OnPage(pages, s) && s.text != []
    ensures SectionCount(sections, s.page, s.start) <= 1
  {
    var m :| 0 <= m < |pages| && pages[m].page == s.page && s.End() <= |pages[m].text|
             && s.text == pages[m].text[s.start..s.End()];
    assert SectionCount(sections, pages[m].page, s.start) <= 1;
  }

  /** Start order and single coverage together exclude overlap within a section. */
  lemma SortedOnceOrdered(pages: seq<PageText>, sections: seq<Section>, k: nat)
    requires SectionsOk(pages, sections) && k < |sections| && AtMostOnce(pages, sections)
    ensures Ordered(sections[k].sources)
  {
    var sources := sections[k].sources;
    assert SectionOk(pages, sections[k]);
    forall i, j | 0 <= i < j < |sources| ensures Precedes(sources[i], sources[j]) {
      assert StartsBy(sources[i], sources[j]);
      StartOnce(pages, sections, sources[j]);
      if sources[i].page == sources[j].page && sources[j].start < sources[i].End() {
        OverlapTwice(sections, k, i, j);
      }
    }
  }

  /** Sections whose ranges do not overlap. */
  ghost predicate SectionsOrdered(pages: seq<PageText>, sections: seq<Section>) {
    forall k :: 0 <= k < |sections| ==> SectionOk(pages, sections[k]) && Ordered(sections[k].sources)
  }

  lemma {:induction false} AllOrdered(pages: seq<PageText>, sections: seq<Section>)
    requires SectionsOk(pages, sections) && AtMostOnce(pages, sections)
    ensures SectionsOrdered(pages, sections)
  {
    forall k | 0 <= k < |sections| ensures SectionOk(pages, sections[k]) && Ordered(sections[k].sources) {
      SortedOnceOrdered(pages, sections, k);
    }
  }

  lemma {:induction false} SliceOfSlice(t: string, a: nat, b: nat, from: nat, to: nat)
    requires a <= b <= |t| && from <= to <= b - a
    ensures t[a..b][from..to] == t[a + from..a + to]
  {
    var x, y := t[a..b][from..to], t[a + from..a + to];
    assert |x| == |y| && forall i :: 0 <= i < |x| ==> x[i] == y[i];
  }

  lemma {:induction false} PartOnPage(pages: seq<PageText>, s: Source, p: Source)
    requires OnPage(pages, s) && SliceOf(p, s)
    ensures OnPage(pages, p)
  {
    var m :| 0 <= m < |pages| && pages[m].page == s.page && s.End() <= |pages[m].text|
             && s.text == pages[m].text[s.start..s.End()];
    SliceOfSlice(pages[m].text, s.start, s.End(), p.start - s.start, p.End() - s.start);
  }

  lemma PartsOnPage(pages: seq<PageText>, sources: seq<Source>, pieces: seq<Source>)
    requires Parts(sources, pieces) && forall i :: 0 <= i < |sources| ==> OnPage(pages, sources[i])
    ensures forall k :: 0 <= k < |pieces| ==> OnPage(pages, pieces[k])
  {
    forall k | 0 <= k < |pieces| ensures OnPage(pages, pieces[k]) {
      assert PartOfSome(pieces[k], sources);
      var i :| 0 <= i < |sources| && SliceOf(pieces[k], sources[i]);
      PartOnPage(pages, sources[i], pieces[k]);
    }
  }

  /** The sources of a packed unit are a consecutive part of the fragments. */
  lemma {:induction false} UnitPart(units: seq<MapUnit>, k: nat) returns (from: nat)
    requires k < |units|
    ensures var all := UnitSources(units); from + |units[k].sources| <= |all|
    ensures UnitSources(units)[from..from + |units[k].sources|] == units[k].sources
  {
    var n := |units| - 1;
    if k < n {
      from := UnitPart(units[..n], k);
      assert UnitSources(units)[..|UnitSources(units[..n])|] == UnitSources(units[..n]);
    } else {
      from := |UnitSources(units[..n])|;
    }
  }

  lemma {:induction false} PackedUnitsOf(c: Contract, f: Frame, pieces: seq<Source>, units: seq<MapUnit>)
    requires f.contract == c.id && Packed(f, units) && UnitSources(units) == pieces && Ordered(pieces)
    requires forall k :: 0 <= k < |pieces| ==> OnPage(c.pages, pieces[k])
    ensures UnitsOf(c, f.query, f.maxInput, units)
  {
    forall k | 0 <= k < |units| ensures UnitOf(c, f.query, f.maxInput, units[k]) {
      assert UnitOk(f, units[k]);
      var from := UnitPart(units, k);
      assert forall i :: 0 <= i < |units[k].sources| ==> units[k].sources[i] == pieces[from + i];
    }
  }

  lemma SameUnitsSnoc(sections: seq<Section>, units: seq<MapUnit>, s: Section, pieces: seq<Source>, more: seq<MapUnit>)
    requires SameUnits(sections, units) && SameCoverage(s.sources, pieces) && UnitSources(more) == pieces
    ensures SameUnits(sections + [s], units + more)
  {
    UnitSourcesConcat(units, more);
    forall page: nat, pos: nat
      ensures SectionCount(sections + [s], page, pos) == CoverCount(UnitSources(units + more), page, pos)
    {
      assert (sections + [s])[..|sections|] == sections;
      CoverConcat(UnitSources(units), pieces, page, pos);
    }
  }

  function FrameOf(c: Contract, query: string, maxInput: nat, sec: Section): Frame {
    Frame(query, c.id, sec.Scope(), maxInput)
  }

  /** `units` are the one full packing of the fragments of a section. */
  ghost predicate SectionPacking(c: Contract, query: string, maxInput: nat, sec: Section, firstOrdinal: nat, units: seq<MapUnit>) {
    var f := FrameOf(c, query, maxInput, sec);
    var pieces := Cuts(f, sec.sources, firstOrdinal);
    pieces.Some? && FullPacking(f, pieces.value, firstOrdinal, units)
  }

  ghost function SectionPacker(c: Contract, query: string, maxInput: nat): (Section, nat, seq<MapUnit>) -> bool {
    (sec, first: nat, units) => SectionPacking(c, query, maxInput, sec, first, units)
  }

  /** The units of a section fit their prompts and cover what the section covers. */
  ghost predicate PackedSection(c: Contract, query: string, maxInput: nat, sec: Section, firstOrdinal: nat, units: seq<MapUnit>) {
    && units != [] && firstOrdinal + |units| <= MAX_MAP_UNITS
    && UnitsOf(c, query, maxInput, units) && SameCoverage(sec.sources, UnitSources(units))
  }

  /** `_pack_section_units`: the units of one section. It fails exactly where some leaf cannot be cut
      or the fragments cannot be packed. */
  method PackSection(c: Contract, query: string, maxInput: nat, sec: Section, firstOrdinal: nat)
    returns (r: Result<seq<MapUnit>>)
    requires SectionOk(c.pages, sec) && Ordered(sec.sources)
    ensures Decides(SectionPacker(c, query, maxInput), sec, firstOrdinal, r)
    ensures r.Ok? ==> PackedSection(c, query, maxInput, sec, firstOrdinal, r.value)
    ensures r.Err? ==> r.error == UnitCap || r.error == RefCap || r.error == PromptOverhead
  {
    if firstOrdinal >= MAX_MAP_UNITS {
      return Err(UnitCap);
    }
    var f := FrameOf(c, query, maxInput, sec);
    var pieces := ExpandSources(f, sec.sources, firstOrdinal);
    if pieces.Err? {
      return Err(pieces.error);
    }
    PiecesNonempty(sec.sources, pieces.value);
    r := PackFragments(f, pieces.value, firstOrdinal);
    if r.Ok? {
      PartsOnPage(c.pages, sec.sources, pieces.value);
      PackedUnitsOf(c, f, pieces.value, r.value);
    }
  }

  lemma PiecesNonempty(sources: seq<Source>, pieces: seq<Source>)
    requires SameCoverage(sources, pieces) && sources != [] && sources[0].text != []
    ensures pieces != []
  {
    CoverOne(sources, 0, sources[0].page, sources[0].start);
    assert CoverCount(sources, sources[0].page, sources[0].start) == CoverCount(pieces, sources[0].page, sources[0].start);
  }

  // ---- the whole contract ----------------------------------------------------------------------------------------

  function FullSources(pages: seq<PageText>): seq<Source> {
    if pages == [] then []
    else
      var last := pages[|pages| - 1];
      FullSources(pages[..|pages| - 1]) + (if last.text == [] then [] else [Source(last.page, 0, last.text)])
  }

  /** How many page rows hold this position. */
  function TextCount(pages: seq<PageText>, page: nat, pos: nat): nat {
    if pages == [] then 0
    else
      var last := pages[|pages| - 1];
      TextCount(pages[..|pages| - 1], page, pos) + (if last.page == page && pos < |last.text| then 1 else 0)
  }

  lemma {:induction false} FullCount(pages: seq<PageText>, page: nat, pos: nat)
    ensures CoverCount(FullSources(pages), page, pos) == TextCount(pages, page, pos)
  {
    if pages != [] {
      var n := |pages| - 1;
      FullCount(pages[..n], page, pos);
      var full := FullSources(pages);
      if pages[n].text == [] {
        assert full == FullSources(pages[..n]);
      } else {
        assert full[..|full| - 1] == FullSources(pages[..n]);
      }
    }
  }

  lemma {:induction false} TextNone(pages: seq<PageText>, page: nat, pos: nat)
    requires forall k :: 0 <= k < |pages| ==> pages[k].page != page
    ensures TextCount(pages, page, pos) == 0
  {
    if pages != [] {
      TextNone(pages[..|pages| - 1], page, pos);
    }
  }

  lemma {:induction false} TextOnce(pages: seq<PageText>, k: nat, pos: nat)
    requires PagesAscend(pages) && k < |pages| && pos < |pages[k].text|
    ensures TextCount(pages, pages[k].page, pos) == 1
  {
    var n := |pages| - 1;
    if k < n {
      TextOnce(pages[..n], k, pos);
    } else {
      TextNone(pages[..n], pages[k].page, pos);
    }
  }

  lemma {:induction false} FullShape(pages: seq<PageText>)
    requires PagesAscend(pages)
    ensures var full := FullSources(pages);
      && Ordered(full)
      && (forall i :: 0 <= i < |full| ==> OnPage(pages, full[i]))
      && (forall i :: 0 <= i < |full| ==> exists k :: 0 <= k < |pages| && pages[k].page == full[i].page)
  {
    if pages != [] {
      var n := |pages| - 1;
      var front, last := pages[..n], pages[n];
      FullShape(front);
      var full := FullSources(pages);
      forall i | 0 <= i < |full|
        ensures OnPage(pages, full[i]) && full[i].text != []
        ensures exists k :: 0 <= k < |pages| && pages[k].page == full[i].page
      {
        if i < |FullSources(front)| {
          assert OnPage(front, full[i]);
          var k :| 0 <= k < |front| && front[k].page == full[i].page && full[i].End() <= |front[k].text|
                   && full[i].text == front[k].text[full[i].start..full[i].End()];
          assert pages[k] == front[k];
        } else {
          assert pages[n].text == pages[n].text[0..|pages[n].text|];
          assert pages[n].page == full[i].page;
        }
      }
      forall i, j | 0 <= i < j < |full| ensures Precedes(full[i], full[j]) {
        if j >= |FullSources(front)| {
          assert full[i] == FullSources(front)[i];
          var k :| 0 <= k < |front| && front[k].page == full[i].page;
          assert pages[k].page < pages[n].page;
        }
      }
    }
  }

  lemma FullCoversOnce(pages: seq<PageText>)
    requires PagesAscend(pages)
    ensures CoveredOnce(pages, FullSources(pages))
  {
    forall k, pos | 0 <= k < |pages| && 0 <= pos < |pages[k].text|
      ensures OncePosition(pages[k].text, pos, CoverCount(FullSources(pages), pages[k].page, pos))
    {
      FullCount(pages, pages[k].page, pos);
      TextOnce(pages, k, pos);
    }
  }

  /** Rows that can be cut into sections: valid ranges, disjoint, reaching all visible text, each
      below a proper parent path. */
  ghost predicate Sectioned(c: Contract) {
    && c.spans != [] && RowsOk(c.pages, c.spans) && Placed(c.nodes, c.spans)
    && forall k :: 0 <= k < |c.pages| ==> PageOnce(c.pages[k], c.spans)
  }

  /** `_major_section_sources`: the sections of a contract that does not fit one prompt. */
  method SectionSources(c: Contract) returns (r: Result<seq<Section>>)
    requires PagesAscend(c.pages) && RowsAscend(c.spans)
    ensures r.Ok? <==> Sectioned(c)
    ensures r.Ok? ==> r.value == Sections(c.pages, c.nodes, c.spans) && r.value != [] && SectionsOk(c.pages, r.value)
    ensures r.Ok? ==> RowsOk(c.pages, c.spans) && SameCover(r.value, RowSources(c.pages, c.spans))
                      && CoveredOnce(c.pages, RowSources(c.pages, c.spans))
    ensures r == Err(BadRange) ==> !RowsOk(c.pages, c.spans)
    ensures r == Err(SpansOverlap) || r == Err(UncoveredText) ==> !forall k :: 0 <= k < |c.pages| ==> PageOnce(c.pages[k], c.spans)
    ensures r == Err(NoText) ==> c.spans == []
  {
    r := GroupRows(c.pages, c.nodes, c.spans);
    if r.Ok? {
      assert c.spans[..|c.spans|] == c.spans;
      var error := CheckPages(c.pages, c.spans);
      if error.Some? {
        return Err(error.value);
      }
      RowsCoverOnce(c.pages, c.spans);
      if r.value == [] {
        return Err(NoText);
      }
    }
  }

  // ---- all contracts --------------------------------------------------------------------------------------------

  /** What the corpus builder promises about the units of one contract. */
  ghost predicate ContractOk(c: Contract, query: string, maxInput: nat, units: seq<MapUnit>) {
    units != [] && UnitsOf(c, query, maxInput, units) && CoveredOnce(c.pages, UnitSources(units))
  }

  ghost predicate Tables(c: Contract) {
    PagesAscend(c.pages) && RowsAscend(c.spans)
  }

  lemma SectionsAtMostOnce(c: Contract, sections: seq<Section>)
    requires RowsOk(c.pages, c.spans) && SameCover(sections, RowSources(c.pages, c.spans))
    requires CoveredOnce(c.pages, RowSources(c.pages, c.spans))
    ensures AtMostOnce(c.pages, sections)
  {
    forall m, pos | 0 <= m < |c.pages| && 0 <= pos < |c.pages[m].text|
      ensures SectionCount(sections, c.pages[m].page, pos) <= 1
    {
      assert OncePosition(c.pages[m].text, pos, CoverCount(RowSources(c.pages, c.spans), c.pages[m].page, pos));
    }
  }

  lemma UnitsCoverOnce(c: Contract, sections: seq<Section>, units: seq<MapUnit>)
    requires RowsOk(c.pages, c.spans) && SameCover(sections, RowSources(c.pages, c.spans))
    requires CoveredOnce(c.pages, RowSources(c.pages, c.spans)) && SameUnits(sections, units)
    ensures CoveredOnce(c.pages, UnitSources(units))
  {
    forall k, pos | 0 <= k < |c.pages| && 0 <= pos < |c.pages[k].text|
      ensures OncePosition(c.pages[k].text, pos, CoverCount(UnitSources(units), c.pages[k].page, pos))
    {
      var page := c.pages[k].page;
      assert OncePosition(c.pages[k].text, pos, CoverCount(RowSources(c.pages, c.spans), page, pos));
      assert SectionCount(sections, page, pos) == CoverCount(UnitSources(units), page, pos);
    }
  }

  /** After `i` sections: their units cover the same positions as the sections. */
  ghost predicate Splitting(c: Contract, query: string, maxInput: nat, sections: seq<Section>, i: nat, units: seq<MapUnit>) {
    && i <= |sections| && UnitsOf(c, query, maxInput, units) && SameUnits(sections[..i], units)
    && (i > 0 ==> units != [])
  }

  lemma {:induction false} SplitStep(c: Contract, query: string, maxInput: nat, sections: seq<Section>, i: nat, units: seq<MapUnit>, more: seq<MapUnit>)
    requires i < |sections| && Splitting(c, query, maxInput, sections, i, units)
    requires UnitsOf(c, query, maxInput, more) && SameCoverage(sections[i].sources, UnitSources(more)) && more != []
    ensures Splitting(c, query, maxInput, sections, i + 1, units + more)
  {
    SameUnitsSnoc(sections[..i], units, sections[i], UnitSources(more), more);
    assert sections[..i + 1] == sections[..i] + [sections[i]];
  }

  /** `units` are those of all sections, one behind the other. */
  ghost predicate SplitInto(c: Contract, query: string, maxInput: nat, firstOrdinal: nat, units: seq<MapUnit>) {
    && Sectioned(c)
    && exists plan ::
      PacksAll(SectionPacker(c, query, maxInput), Sections(c.pages, c.nodes, c.spans), firstOrdinal, plan)
      && units == Flatten(plan)
  }

  /** The loop below, with the units of each section so far in `plan`. */
  ghost predicate SplitSoFar(c: Contract, query: string, maxInput: nat, sections: seq<Section>, firstOrdinal: nat,
                             units: seq<MapUnit>, plan: seq<seq<MapUnit>>)
  {
    && Splitting(c, query, maxInput, sections, |plan|, units) && firstOrdinal + |units| <= MAX_MAP_UNITS
    && Flatten(plan) == units && |units| == Total(plan) && OnlyWay(SectionPacker(c, query, maxInput), sections, firstOrdinal, plan)
  }

  lemma {:induction false} SplitStart(c: Contract, query: string, maxInput: nat, sections: seq<Section>, firstOrdinal: nat)
    requires firstOrdinal <= MAX_MAP_UNITS
    ensures SplitSoFar(c, query, maxInput, sections, firstOrdinal, [], [])
  {
  }

  lemma {:induction false} SplitMore(c: Contract, query: string, maxInput: nat, sections: seq<Section>, firstOrdinal: nat,
                                     units: seq<MapUnit>, plan: seq<seq<MapUnit>>, more: seq<MapUnit>)
    requires |plan| < |sections| && SplitSoFar(c, query, maxInput, sections, firstOrdinal, units, plan)
    requires PackedSection(c, query, maxInput, sections[|plan|], firstOrdinal + |units|, more)
    requires OnlyWay(SectionPacker(c, query, maxInput), sections, firstOrdinal, plan + [more])
    ensures SplitSoFar(c, query, maxInput, sections, firstOrdinal, units + more, plan + [more])
  {
    FlattenSnoc(plan, more);
    TotalSnoc(plan, more);
    SplitStep(c, query, maxInput, sections, |plan|, units, more);
  }

  /** What packing the next section makes of the sections before it. */
  lemma {:induction false} SplitNext(c: Contract, query: string, maxInput: nat, sections: seq<Section>, firstOrdinal: nat,
                                     units: seq<MapUnit>, plan: seq<seq<MapUnit>>, sec: Section, n: nat,
                                     more: Result<seq<MapUnit>>)
    requires |plan| < |sections| && SplitSoFar(c, query, maxInput, sections, firstOrdinal, units, plan)
    requires sec == sections[|plan|] && n == firstOrdinal + |units|
    requires Decides(SectionPacker(c, query, maxInput), sec, n, more)
    requires more.Ok? ==> PackedSection(c, query, maxInput, sec, n, more.value)
    ensures more.Err? ==> NoWay(SectionPacker(c, query, maxInput), sections, firstOrdinal)
    ensures more.Ok? ==> SplitSoFar(c, query, maxInput, sections, firstOrdinal, units + more.value, plan + [more.value])
  {
    OneMore(SectionPacker(c, query, maxInput), sections, firstOrdinal, plan, n, more);
    if more.Ok? {
      SplitMore(c, query, maxInput, sections, firstOrdinal, units, plan, more.value);
    }
  }

  /** One section of the loop below. */
  method PackNext(c: Contract, query: string, maxInput: nat, sections: seq<Section>, firstOrdinal: nat,
                  i: nat, units: seq<MapUnit>, ghost plan: seq<seq<MapUnit>>)
    returns (more: Result<seq<MapUnit>>)
    requires i == |plan| < |sections| && SectionOk(c.pages, sections[i]) && Ordered(sections[i].sources)
    requires SplitSoFar(c, query, maxInput, sections, firstOrdinal, units, plan)
    ensures more.Err? ==> NoWay(SectionPacker(c, query, maxInput), sections, firstOrdinal)
    ensures more.Ok? ==> SplitSoFar(c, query, maxInput, sections, firstOrdinal, units + more.value, plan + [more.value])
  {
    var sec, n := sections[i], firstOrdinal + |units|;
    more := PackSection(c, query, maxInput, sec, n);
    SplitNext(c, query, maxInput, sections, firstOrdinal, units, plan, sec, n, more);
  }

  /** The loop over the sections: it fails exactly where they cannot be packed one behind the other. */
  method SplitSections(c: Contract, query: string, maxInput: nat, sections: seq<Section>, firstOrdinal: nat)
    returns (r: Result<seq<MapUnit>>, ghost plan: seq<seq<MapUnit>>)
    requires SectionsOrdered(c.pages, sections) && firstOrdinal <= MAX_MAP_UNITS
    ensures r.Err? ==> NoWay(SectionPacker(c, query, maxInput), sections, firstOrdinal)
    ensures r.Ok? ==> |plan| == |sections| && SplitSoFar(c, query, maxInput, sections, firstOrdinal, r.value, plan)
  {
    var units: seq<MapUnit> := [];
    var i := 0;
    plan := [];
    SplitStart(c, query, maxInput, sections, firstOrdinal);
    while i < |sections|
      invariant 0 <= i == |plan| <= |sections| && SplitSoFar(c, query, maxInput, sections, firstOrdinal, units, plan)
    {
      var more := PackNext(c, query, maxInput, sections, firstOrdinal, i, units, plan);
      if more.Err? {
        r := Err(more.error);
        return;
      }
      plan := plan + [more.value];
      units := units + more.value;
      i := i + 1;
    }
    r := Ok(units);
  }

  lemma {:induction false} OnlySplit(c: Contract, query: string, maxInput: nat, firstOrdinal: nat, plan: seq<seq<MapUnit>>)
    requires Sectioned(c) && var sections := Sections(c.pages, c.nodes, c.spans);
      |plan| == |sections| && OnlyWay(SectionPacker(c, query, maxInput), sections, firstOrdinal, plan)
    ensures forall units :: SplitInto(c, query, maxInput, firstOrdinal, units) <==> units == Flatten(plan)
  {
    OnlyPlan(SectionPacker(c, query, maxInput), Sections(c.pages, c.nodes, c.spans), firstOrdinal, plan);
  }

  /** The section branch of the corpus loop: it fails exactly where the rows cannot be cut into
      sections or these cannot be packed one behind the other. */
  method SplitContract(c: Contract, query: string, maxInput: nat, firstOrdinal: nat)
    returns (r: Result<seq<MapUnit>>)
    requires Tables(c) && firstOrdinal <= MAX_MAP_UNITS
    ensures forall units :: SplitInto(c, query, maxInput, firstOrdinal, units) <==> r == Ok(units)
    ensures r.Ok? ==> ContractOk(c, query, maxInput, r.value) && firstOrdinal + |r.value| <= MAX_MAP_UNITS
  {
    var found := SectionSources(c);
    if found.Err? {
      return Err(found.error);
    }
    SectionsAtMostOnce(c, found.value);
    AllOrdered(c.pages, found.value);
    ghost var plan;
    r, plan := SplitSections(c, query, maxInput, found.value, firstOrdinal);
    if r.Ok? {
      OnlySplit(c, query, maxInput, firstOrdinal, plan);
      assert found.value[..|found.value|] == found.value;
      UnitsCoverOnce(c, found.value, r.value);
    }
  }

  lemma {:induction false} WholeContractOk(c: Contract, query: string, maxInput: nat)
    requires Tables(c)
    requires var full := FullSources(c.pages);
      0 < |full| <= MAX_SOURCE_REFS_PER_UNIT && MapPromptCharacters(query, MapUnit(c.id, WholeContract, full)) <= maxInput
    ensures ContractOk(c, query, maxInput, [MapUnit(c.id, WholeContract, FullSources(c.pages))])
  {
    var u := MapUnit(c.id, WholeContract, FullSources(c.pages));
    FullShape(c.pages);
    FullCoversOnce(c.pages);
    UnitSourcesSnoc([], u);
    assert [] + [u] == [u];
    assert UnitSources([u]) == u.sources;
    assert UnitOf(c, query, maxInput, u);
  }

  ghost predicate FitsWhole(c: Contract, query: string, maxInput: nat) {
    MapPromptCharacters(query, MapUnit(c.id, WholeContract, FullSources(c.pages))) <= maxInput
  }

  /** `units` are those of a contract: it has text on few enough pages and room in the plan, and fits
      whole or can be split. */
  ghost predicate ContractPacking(c: Contract, query: string, maxInput: nat, firstOrdinal: nat, units: seq<MapUnit>) {
    var full := FullSources(c.pages);
    && 0 < |full| <= MAX_SOURCE_REFS_PER_UNIT && firstOrdinal < MAX_MAP_UNITS
    && if FitsWhole(c, query, maxInput) then units == [MapUnit(c.id, WholeContract, full)]
       else SplitInto(c, query, maxInput, firstOrdinal, units)
  }

  ghost function ContractPacker(query: string, maxInput: nat): (Contract, nat, seq<MapUnit>) -> bool {
    (c, first: nat, units) => ContractPacking(c, query, maxInput, first, units)
  }

  /** One contract of `_build_corpus_snapshot`: whole if its prompt fits, else by section. */
  method BuildContract(c: Contract, query: string, maxInput: nat, firstOrdinal: nat)
    returns (r: Result<seq<MapUnit>>)
    requires Tables(c)
    ensures Decides(ContractPacker(query, maxInput), c, firstOrdinal, r)
    ensures r.Ok? ==> ContractOk(c, query, maxInput, r.value) && firstOrdinal + |r.value| <= MAX_MAP_UNITS
    ensures FullSources(c.pages) == [] ==> r == Err(NoText)
  {
    var full := FullSources(c.pages);
    if full == [] {
      return Err(NoText);
    }
    if firstOrdinal >= MAX_MAP_UNITS {
      return Err(UnitCap);
    }
    if |full| > MAX_SOURCE_REFS_PER_UNIT {
      return Err(RefCap);
    }
    var tentative := MapUnit(c.id, WholeContract, full);
    if MapPromptCharacters(query, tentative) <= maxInput {
      WholeContractOk(c, query, maxInput);
      return Ok([tentative]);
    }
    r := SplitContract(c, query, maxInput, firstOrdinal);
  }

  /** One entry per contract, in order. */
  ghost predicate PlanOk(contracts: seq<Contract>, query: string, maxInput: nat, plan: seq<seq<MapUnit>>) {
    |plan| <= |contracts| && forall i :: 0 <= i < |plan| ==> ContractOk(contracts[i], query, maxInput, plan[i])
  }

  lemma {:induction false} PlanSnoc(contracts: seq<Contract>, query: string, maxInput: nat, plan: seq<seq<MapUnit>>, units: seq<MapUnit>)
    requires PlanOk(contracts, query, maxInput, plan) && |plan| < |contracts|
    requires ContractOk(contracts[|plan|], query, maxInput, units)
    ensures PlanOk(contracts, query, maxInput, plan + [units])
  {
  }

  /** The plan of the first contracts, in the one way there is. */
  ghost predicate PlanSoFar(contracts: seq<Contract>, query: string, maxInput: nat, plan: seq<seq<MapUnit>>) {
    && PlanOk(contracts, query, maxInput, plan) && Total(plan) <= MAX_MAP_UNITS
    && OnlyWay(ContractPacker(query, maxInput), contracts, 0, plan)
  }

  /** One contract of the loop below. */
  method BuildNext(contracts: seq<Contract>, query: string, maxInput: nat, i: nat, ghost plan: seq<seq<MapUnit>>, count: nat)
    returns (units: Result<seq<MapUnit>>)
    requires i == |plan| < |contracts| && Tables(contracts[i]) && count == Total(plan)
    requires PlanSoFar(contracts, query, maxInput, plan)
    ensures units.Err? ==> NoWay(ContractPacker(query, maxInput), contracts, 0)
    ensures units.Ok? ==> PlanSoFar(contracts, query, maxInput, plan + [units.value])
                          && Total(plan + [units.value]) == count + |units.value|
  {
    units := BuildContract(contracts[i], query, maxInput, count);
    OneMore(ContractPacker(query, maxInput), contracts, 0, plan, count, units);
    if units.Ok? {
      TotalSnoc(plan, units.value);
      PlanSnoc(contracts, query, maxInput, plan, units.value);
    }
  }

  /** `_build_corpus_snapshot`: per contract, units that cover its text once and fit their prompts. It
      returns the one plan there is, and fails exactly where there is none. */
  method BuildCorpus(contracts: seq<Contract>, query: string, maxInput: nat)
    returns (r: Result<seq<seq<MapUnit>>>)
    requires forall i :: 0 <= i < |contracts| ==> Tables(contracts[i])
    ensures forall plan :: contracts != [] && PacksAll(ContractPacker(query, maxInput), contracts, 0, plan) <==> r == Ok(plan)
    ensures r.Ok? ==> |r.value| == |contracts| > 0 && PlanOk(contracts, query, maxInput, r.value)
                      && |Flatten(r.value)| <= MAX_MAP_UNITS
    ensures contracts == [] ==> r == Err(NoContracts)
  {
    if contracts == [] {
      return Err(NoContracts);
    }
    var plan: seq<seq<MapUnit>> := [];
    var count := 0;
    for i := 0 to |contracts|
      invariant i == |plan| && PlanSoFar(contracts, query, maxInput, plan) && count == Total(plan)
    {
      var units := BuildNext(contracts, query, maxInput, i, plan, count);
      if units.Err? {
        return Err(units.error);
      }
      plan := plan + [units.value];
      count := count + |units.value|;
    }
    TotalLength(plan);
    OnlyPlan(ContractPacker(query, maxInput), contracts, 0, plan);
    r := Ok(plan);
  }
}
