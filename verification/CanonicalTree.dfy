/**
 The canonical document as a table of nodes with parent pointers, and the depth-first walk that
 extracts its text units in document order.
 */
module CanonicalTree {
  import opened Common
  import opened TextWindows

  datatype Kind =
    | Document | Section | Paragraph | Heading | List | ListItem | Quote | Code | Table | Row | Cell
    | Image | Figure | Caption | Page | Slide | Sheet | TranscriptSegment | SpeakerTurn | Attachment
    | Reference | Generic

  /** Kinds whose children are walked instead of their own text. */
  predicate Container(kind: Kind): (walked: bool)
    ensures !walked <==>
              || kind.Paragraph? || kind.Heading? || kind.ListItem? || kind.Quote? || kind.Code? || kind.Table?
              || kind.Row? || kind.Cell? || kind.Image? || kind.Caption? || kind.TranscriptSegment?
              || kind.SpeakerTurn? || kind.Attachment? || kind.Reference?
  {
    Anchor(kind) || kind.Document? || kind.Figure? || kind.Generic? || kind.List?
  }

  /** Containers that enter the section ancestry. */
  predicate Anchor(kind: Kind) { kind.Section? || kind.Page? || kind.Slide? || kind.Sheet? }

  datatype Node = Node(id: nat, kind: Kind, parent: Option<nat>, order: int, text: Option<string>,
                       language: Option<string>)

  datatype Doc = Doc(nodes: seq<Node>, roots: seq<nat>, languages: seq<string>)

  datatype Span = Span(node: nat, start: nat, end: nat)

  datatype Unit = Unit(
    node: nat, start: nat, end: nat, text: string, language: string, kind: Kind,
    ancestry: seq<nat>, spans: seq<Span>)

  /** The node table: the last node of an id. */
  function FindNode(nodes: seq<Node>, id: nat): (r: Option<Node>)
    ensures r.Some? ==> r.value in nodes && r.value.id == id
    ensures r.None? ==> forall n :: n in nodes ==> n.id != id
  {
    if nodes == [] then None
    else if nodes[|nodes| - 1].id == id then Some(nodes[|nodes| - 1])
    else FindNode(nodes[..|nodes| - 1], id)
  }

  predicate DistinctIds(nodes: seq<Node>) {
    forall i, j :: 0 <= i < j < |nodes| ==> nodes[i].id != nodes[j].id
  }

  /** Ids are unique and the listed roots are distinct parentless nodes; cycles are not excluded. */
  predicate WellFormed(doc: Doc) {
    && DistinctIds(doc.nodes)
    && Distinct(doc.roots)
    && forall r :: r in doc.roots ==> FindNode(doc.nodes, r).Some? && FindNode(doc.nodes, r).value.parent.None?
  }

  lemma {:induction false} FindUnique(nodes: seq<Node>, n: Node)
    requires DistinctIds(nodes) && n in nodes
    ensures FindNode(nodes, n.id) == Some(n)
  {
    var last := |nodes| - 1;
    if nodes[last].id != n.id {
      FindUnique(nodes[..last], n);
    } else {
      var i :| 0 <= i < |nodes| && nodes[i] == n;
    }
  }

  // ---------------------------------------------------------------- children

  /** Insert after every node of the same or a lower order, as a stable sort does. */
  function InsertByOrder(sorted: seq<Node>, n: Node): (r: seq<Node>)
    ensures multiset(r) == multiset(sorted) + multiset{n}
  {
    if sorted == [] || sorted[|sorted| - 1].order <= n.order then sorted + [n]
    else
      assert sorted == sorted[..|sorted| - 1] + [sorted[|sorted| - 1]];
      InsertByOrder(sorted[..|sorted| - 1], n) + [sorted[|sorted| - 1]]
  }

  /** The nodes whose parent is `id`, by child order, equal orders staying in document order. */
  function Children(nodes: seq<Node>, id: nat): seq<Node> {
    if nodes == [] then []
    else
      var n := nodes[|nodes| - 1];
      var before := Children(nodes[..|nodes| - 1], id);
      if n.parent == Some(id) then InsertByOrder(before, n) else before
  }

  predicate SortedByOrder(nodes: seq<Node>) {
    forall i, j :: 0 <= i < j < |nodes| ==> nodes[i].order <= nodes[j].order
  }

  lemma InsertMembers(sorted: seq<Node>, n: Node)
    ensures forall m :: m in InsertByOrder(sorted, n) <==> m == n || m in sorted
  {
    forall m ensures m in InsertByOrder(sorted, n) <==> m == n || m in sorted {
      assert m in InsertByOrder(sorted, n) <==> m in multiset(InsertByOrder(sorted, n));
    }
  }

  lemma {:induction false} InsertSorted(sorted: seq<Node>, n: Node)
    requires SortedByOrder(sorted)
    ensures SortedByOrder(InsertByOrder(sorted, n))
  {
    if !(sorted == [] || sorted[|sorted| - 1].order <= n.order) {
      var front, last := sorted[..|sorted| - 1], sorted[|sorted| - 1];
      InsertSorted(front, n);
      InsertMembers(front, n);
      var r := InsertByOrder(front, n);
      forall i | 0 <= i < |r| ensures r[i].order <= last.order {
        assert r[i] in r;
      }
    }
  }

  lemma {:induction false} InsertDistinct(sorted: seq<Node>, n: Node)
    requires DistinctIds(sorted) && forall m :: m in sorted ==> m.id != n.id
    ensures DistinctIds(InsertByOrder(sorted, n))
  {
    if !(sorted == [] || sorted[|sorted| - 1].order <= n.order) {
      var front, last := sorted[..|sorted| - 1], sorted[|sorted| - 1];
      assert last in sorted && forall m :: m in front ==> m in sorted;
      InsertDistinct(front, n);
      InsertMembers(front, n);
      var r := InsertByOrder(front, n);
      forall i | 0 <= i < |r| ensures r[i].id != last.id {
        assert r[i] in r;
      }
    }
  }

  /** Children are exactly the nodes that name the parent, each once, in order. */
  lemma {:induction false} ChildrenExact(nodes: seq<Node>, id: nat)
    requires DistinctIds(nodes)
    ensures SortedByOrder(Children(nodes, id)) && DistinctIds(Children(nodes, id))
    ensures forall n :: n in Children(nodes, id) <==> n in nodes && n.parent == Some(id)
  {
    if nodes != [] {
      var front, last := nodes[..|nodes| - 1], nodes[|nodes| - 1];
      assert nodes == front + [last];
      ChildrenExact(front, id);
      if last.parent == Some(id) {
        var before := Children(front, id);
        assert forall m :: m in front ==> m.id != last.id;
        InsertMembers(before, last);
        InsertSorted(before, last);
        InsertDistinct(before, last);
      }
    }
  }

  // ------------------------------------------------------------------- paths

  /** A chain of parent pointers from a parentless node down to the last one. */
  predicate PathOk(doc: Doc, path: seq<nat>) {
    && |path| > 0
    && (forall i :: 0 <= i < |path| ==> FindNode(doc.nodes, path[i]).Some?)
    && FindNode(doc.nodes, path[0]).value.parent.None?
    && (forall i :: 0 < i < |path| ==> FindNode(doc.nodes, path[i]).value.parent == Some(path[i - 1]))
  }

  function Last(path: seq<nat>): nat
    requires |path| > 0
  {
    path[|path| - 1]
  }

  lemma PathPrefix(doc: Doc, path: seq<nat>, n: nat)
    requires PathOk(doc, path) && 0 < n <= |path|
    ensures PathOk(doc, path[..n])
  {
  }

  /** A node is reached by one path only: each node has one parent pointer. */
  lemma {:induction false} PathUnique(doc: Doc, p: seq<nat>, q: seq<nat>)
    requires PathOk(doc, p) && PathOk(doc, q) && Last(p) == Last(q)
    ensures p == q
    decreases |p|
  {
    assert |p| > 1 ==> FindNode(doc.nodes, p[|p| - 1]).value.parent == Some(p[|p| - 2]);
    assert |q| > 1 ==> FindNode(doc.nodes, q[|q| - 1]).value.parent == Some(q[|q| - 2]);
    if |p| > 1 && |q| > 1 {
      var a, b := p[..|p| - 1], q[..|q| - 1];
      PathUnique(doc, a, b);
      assert p == a + [Last(p)] && q == b + [Last(q)];
    }
  }

  /** So a path never meets a node twice, although the table may hold cycles. */
  lemma PathDistinct(doc: Doc, path: seq<nat>)
    requires PathOk(doc, path)
    ensures Distinct(path)
  {
    forall i, j | 0 <= i < j < |path| ensures path[i] != path[j] {
      PathPrefix(doc, path, i + 1);
      PathPrefix(doc, path, j + 1);
      if path[i] == path[j] {
        PathUnique(doc, path[..i + 1], path[..j + 1]);
        assert false;
      }
    }
  }

  function Ids(nodes: seq<Node>): (ids: set<nat>)
    ensures forall n :: n in nodes ==> n.id in ids
    ensures |ids| <= |nodes|
  {
    if nodes == [] then {} else {nodes[0].id} + Ids(nodes[1..])
  }

  lemma {:induction false} DistinctFits(s: seq<nat>, all: set<nat>)
    requires Distinct(s) && forall x :: x in s ==> x in all
    ensures |s| <= |all|
    decreases |s|
  {
    if s != [] {
      DistinctFits(s[1..], all - {s[0]});
    }
  }

  lemma PathBounded(doc: Doc, path: seq<nat>)
    requires PathOk(doc, path)
    ensures |path| <= |doc.nodes|
  {
    PathDistinct(doc, path);
    forall x | x in path ensures x in Ids(doc.nodes) {
      var i :| 0 <= i < |path| && path[i] == x;
      assert FindNode(doc.nodes, path[i]).value in doc.nodes;
    }
    DistinctFits(path, Ids(doc.nodes));
  }

  lemma PathExtends(doc: Doc, path: seq<nat>, kid: Node)
    requires WellFormed(doc) && PathOk(doc, path) && kid in doc.nodes && kid.parent == Some(Last(path))
    ensures PathOk(doc, path + [kid.id]) && FindNode(doc.nodes, kid.id) == Some(kid)
    ensures |path| < |doc.nodes|
  {
    FindUnique(doc.nodes, kid);
    PathBounded(doc, path + [kid.id]);
  }

  // -------------------------------------------------------------------- text

  function OrEmpty(text: Option<string>): string { if text.Some? then text.value else "" }

  function JoinWith(parts: seq<string>, glue: string): string {
    if parts == [] then ""
    else if |parts| == 1 then parts[0]
    else parts[0] + glue + JoinWith(parts[1..], glue)
  }

  function OfKind(nodes: seq<Node>, kind: Kind): seq<Node> {
    if nodes == [] then []
    else (if nodes[0].kind == kind then [nodes[0]] else []) + OfKind(nodes[1..], kind)
  }

  function Texts(nodes: seq<Node>): (r: seq<string>)
    ensures |r| == |nodes|
  {
    seq(|nodes|, i requires 0 <= i < |nodes| => OrEmpty(nodes[i].text))
  }

  function RowTexts(doc: Doc, rows: seq<Node>): seq<string> {
    seq(|rows|, i requires 0 <= i < |rows| =>
      JoinWith(Texts(OfKind(Children(doc.nodes, rows[i].id), Cell)), " | "))
  }

  function NonEmpty(parts: seq<string>): seq<string> {
    if parts == [] then [] else (if parts[0] != "" then [parts[0]] else []) + NonEmpty(parts[1..])
  }

  /** _table_text: rows of cells, or the children's own texts when there is no row. */
  function TableText(doc: Doc, id: nat): string {
    var kids := Children(doc.nodes, id);
    var rows := OfKind(kids, Row);
    JoinWith(if rows != [] then RowTexts(doc, rows) else NonEmpty(Texts(kids)), "\n")
  }

  /** Where a part begins in the joined text. */
  function Offset(parts: seq<string>, glue: string, k: nat): nat
    requires k <= |parts|
  {
    if k == 0 then 0 else Offset(parts, glue, k - 1) + |parts[k - 1]| + |glue|
  }

  /** Each part stands at its offset, followed by the glue or the end. */
  ghost predicate PlacedAt(text: string, parts: seq<string>, glue: string, k: nat)
    requires k < |parts|
  {
    var from := Offset(parts, glue, k);
    var to := from + |parts[k]|;
    && to <= |text| && text[from..to] == parts[k]
    && (if k + 1 < |parts| then to + |glue| <= |text| && text[to..to + |glue|] == glue else to == |text|)
  }

  lemma {:induction false} OffsetRest(parts: seq<string>, glue: string, k: nat)
    requires 0 < k <= |parts|
    ensures Offset(parts, glue, k) == |parts[0]| + |glue| + Offset(parts[1..], glue, k - 1)
  {
    if k > 1 {
      OffsetRest(parts, glue, k - 1);
      assert parts[1..][k - 2] == parts[k - 1];
    }
  }

  lemma {:induction false} JoinPlaces(parts: seq<string>, glue: string, k: nat)
    requires k < |parts|
    ensures PlacedAt(JoinWith(parts, glue), parts, glue, k)
    decreases |parts|
  {
    if |parts| > 1 && k == 0 {
      FirstPlaced(parts, glue, JoinWith(parts[1..], glue));
    } else if |parts| > 1 {
      JoinPlaces(parts[1..], glue, k - 1);
      LaterPlaced(parts, glue, JoinWith(parts[1..], glue), k);
    }
  }

  lemma FirstPlaced(parts: seq<string>, glue: string, rest: string)
    requires |parts| > 1
    ensures PlacedAt(parts[0] + glue + rest, parts, glue, 0)
  {
    var text := parts[0] + glue + rest;
    assert text[..|parts[0]|] == parts[0];
    assert text[|parts[0]|..|parts[0]| + |glue|] == glue;
  }

  lemma LaterPlaced(parts: seq<string>, glue: string, rest: string, k: nat)
    requires 0 < k < |parts| && PlacedAt(rest, parts[1..], glue, k - 1)
    ensures PlacedAt(parts[0] + glue + rest, parts, glue, k)
  {
    OffsetRest(parts, glue, k);
    var from := Offset(parts[1..], glue, k - 1);
    var to := from + |parts[k]|;
    Shifted(parts[0] + glue, rest, from, to);
    if k + 1 < |parts| { Shifted(parts[0] + glue, rest, to, to + |glue|); }
  }

  lemma Shifted(front: string, rest: string, from: nat, to: nat)
    requires from <= to <= |rest|
    ensures (front + rest)[|front| + from..|front| + to] == rest[from..to]
  {
  }

  lemma {:induction false} OfKindMembers(nodes: seq<Node>, kind: Kind)
    ensures forall n :: n in OfKind(nodes, kind) <==> n in nodes && n.kind == kind
  {
    if nodes != [] {
      OfKindMembers(nodes[1..], kind);
      assert nodes == [nodes[0]] + nodes[1..];
    }
  }

  lemma SortedRest(nodes: seq<Node>)
    requires nodes != [] && SortedByOrder(nodes)
    ensures SortedByOrder(nodes[1..]) && forall n :: n in nodes[1..] ==> nodes[0].order <= n.order
  {
  }

  lemma SortedFront(first: Node, rest: seq<Node>)
    requires SortedByOrder(rest) && forall n :: n in rest ==> first.order <= n.order
    ensures SortedByOrder([first] + rest)
  {
  }

  /** Those of a kind, in the order they had. */
  lemma {:induction false} OfKindSorted(nodes: seq<Node>, kind: Kind)
    requires SortedByOrder(nodes)
    ensures SortedByOrder(OfKind(nodes, kind))
  {
    if nodes != [] {
      SortedRest(nodes);
      OfKindSorted(nodes[1..], kind);
      OfKindMembers(nodes[1..], kind);
      SortedFront(nodes[0], OfKind(nodes[1..], kind));
      assert [] + OfKind(nodes[1..], kind) == OfKind(nodes[1..], kind);
    }
  }

  lemma {:induction false} NonEmptyExact(parts: seq<string>)
    ensures forall p :: p in NonEmpty(parts) <==> p in parts && p != ""
  {
    if parts != [] {
      NonEmptyExact(parts[1..]);
      assert parts == [parts[0]] + parts[1..];
    }
  }

  /** The rows of a table and the cells of a row are the child nodes of those kinds, in child order. */
  lemma KidsOfKind(doc: Doc, id: nat, kind: Kind)
    requires WellFormed(doc)
    ensures var kids := OfKind(Children(doc.nodes, id), kind);
            && SortedByOrder(kids)
            && forall n :: n in kids <==> n in doc.nodes && n.parent == Some(id) && n.kind == kind
  {
    ChildrenExact(doc.nodes, id);
    OfKindMembers(Children(doc.nodes, id), kind);
    OfKindSorted(Children(doc.nodes, id), kind);
  }

  /**
   The text of a table with rows has one line for each row, in order, and on it the texts of its cells,
   in order, with bars between them: the text of cell `c` of row `r` stands where that says.
   */
  lemma TableReads(doc: Doc, id: nat, r: nat, c: nat)
    requires WellFormed(doc)
    requires r < |OfKind(Children(doc.nodes, id), Row)|
    requires c < |OfKind(Children(doc.nodes, OfKind(Children(doc.nodes, id), Row)[r].id), Cell)|
    ensures var rows := OfKind(Children(doc.nodes, id), Row);
            var cells := OfKind(Children(doc.nodes, rows[r].id), Cell);
            var lines := RowTexts(doc, rows);
            && PlacedAt(TableText(doc, id), lines, "\n", r)
            && PlacedAt(lines[r], Texts(cells), " | ", c)
            && Texts(cells)[c] == (if cells[c].text.Some? then cells[c].text.value else "")
  {
    var rows := OfKind(Children(doc.nodes, id), Row);
    var cells := OfKind(Children(doc.nodes, rows[r].id), Cell);
    JoinPlaces(RowTexts(doc, rows), "\n", r);
    JoinPlaces(Texts(cells), " | ", c);
  }

  /** Without rows it has one line for each child that has a text. */
  lemma PlainTableReads(doc: Doc, id: nat, k: nat)
    requires OfKind(Children(doc.nodes, id), Row) == [] && k < |NonEmpty(Texts(Children(doc.nodes, id)))|
    ensures var parts := NonEmpty(Texts(Children(doc.nodes, id)));
            && PlacedAt(TableText(doc, id), parts, "\n", k)
            && (forall p :: p in parts <==> p in Texts(Children(doc.nodes, id)) && p != "")
  {
    JoinPlaces(NonEmpty(Texts(Children(doc.nodes, id))), "\n", k);
    NonEmptyExact(Texts(Children(doc.nodes, id)));
  }

  function TextOf(doc: Doc, node: Node): string {
    if node.kind.Table? then TableText(doc, node.id) else OrEmpty(node.text)
  }

  function LanguageOf(doc: Doc, node: Node): string {
    if node.language.Some? && node.language.value != "" then node.language.value
    else if doc.languages != [] then doc.languages[0] else "und"
  }

  /** The unit of a leaf: its whole text under its own span; a heading belongs to its own section. */
  function UnitOf(doc: Doc, node: Node, ancestry: seq<nat>): Unit {
    var text := TextOf(doc, node);
    Unit(node.id, 0, |text|, text, LanguageOf(doc, node), node.kind,
         if node.kind.Heading? then ancestry + [node.id] else ancestry, [Span(node.id, 0, |text|)])
  }

  predicate Emits(doc: Doc, node: Node) { !Container(node.kind) && NonBlank(TextOf(doc, node)) }

  // -------------------------------------------------------------------- walk

  /** _walk_units on the node at the end of `path`. */
  ghost function Walk(doc: Doc, path: seq<nat>, ancestry: seq<nat>): seq<Unit>
    requires WellFormed(doc) && PathOk(doc, path)
    decreases |doc.nodes| + 1 - |path|, 1, 0
  {
    var node := FindNode(doc.nodes, Last(path)).value;
    if Container(node.kind) then
      ChildrenExact(doc.nodes, node.id);
      PathBounded(doc, path);
      WalkAll(doc, path, if Anchor(node.kind) then ancestry + [node.id] else ancestry, Children(doc.nodes, node.id))
    else if Emits(doc, node) then [UnitOf(doc, node, ancestry)]
    else []
  }

  ghost predicate KidsOf(doc: Doc, path: seq<nat>, kids: seq<Node>)
    requires |path| > 0
  {
    DistinctIds(kids) && forall n :: n in kids ==> n in doc.nodes && n.parent == Some(Last(path))
  }

  ghost function WalkAll(doc: Doc, path: seq<nat>, ancestry: seq<nat>, kids: seq<Node>): seq<Unit>
    requires WellFormed(doc) && PathOk(doc, path) && KidsOf(doc, path, kids)
    decreases |doc.nodes| + 1 - |path|, 0, |kids|
  {
    if kids == [] then []
    else
      PathExtends(doc, path, kids[0]);
      Walk(doc, path + [kids[0].id], ancestry) + WalkAll(doc, path, ancestry, kids[1..])
  }

  /** A path that goes down from the end of `from` through containers to a leaf that is emitted. */
  ghost predicate Leads(doc: Doc, from: seq<nat>, q: seq<nat>) {
    && PathOk(doc, q) && 0 < |from| && from <= q
    && Emits(doc, FindNode(doc.nodes, Last(q)).value)
    && (forall i :: |from| - 1 <= i < |q| - 1 ==> Container(FindNode(doc.nodes, q[i]).value.kind))
  }

  ghost predicate Found(units: seq<Unit>, id: nat) {
    exists k :: 0 <= k < |units| && units[k].node == id
  }

  predicate DistinctNodes(units: seq<Unit>) {
    forall i, j :: 0 <= i < j < |units| ==> units[i].node != units[j].node
  }

  /** What every emitted unit looks like. */
  ghost predicate UnitOk(doc: Doc, u: Unit) {
    && NonBlank(u.text) && u.start == 0 && u.end == |u.text| && u.spans == [Span(u.node, 0, |u.text|)]
    && FindNode(doc.nodes, u.node).Some?
    && u.kind == FindNode(doc.nodes, u.node).value.kind && u.text == TextOf(doc, FindNode(doc.nodes, u.node).value)
    && ReadsNode(doc, u, FindNode(doc.nodes, u.node).value)
  }

  /** Own text but for a table, own language or else the document's first, or else none determined. */
  predicate ReadsNode(doc: Doc, u: Unit, node: Node) {
    && (!node.kind.Table? ==> node.text == Some(u.text))
    && (node.language.Some? && node.language.value != "" ==> u.language == node.language.value)
    && (node.language.None? || node.language.value == "" ==>
          if |doc.languages| > 0 then u.language == doc.languages[0] else u.language == "und")
  }

  lemma {:induction false} WalkSound(doc: Doc, path: seq<nat>, ancestry: seq<nat>, u: Unit) returns (q: seq<nat>)
    requires WellFormed(doc) && PathOk(doc, path) && u in Walk(doc, path, ancestry)
    ensures Leads(doc, path, q) && Last(q) == u.node && UnitOk(doc, u)
    decreases |doc.nodes| + 1 - |path|, 1, 0
  {
    var node := FindNode(doc.nodes, Last(path)).value;
    if Container(node.kind) {
      ChildrenExact(doc.nodes, node.id);
      PathBounded(doc, path);
      q := WalkAllSound(doc, path, if Anchor(node.kind) then ancestry + [node.id] else ancestry,
                        Children(doc.nodes, node.id), u);
    } else {
      q := path;
    }
  }

  lemma {:induction false} WalkAllSound(doc: Doc, path: seq<nat>, ancestry: seq<nat>, kids: seq<Node>, u: Unit)
    returns (q: seq<nat>)
    requires WellFormed(doc) && PathOk(doc, path) && KidsOf(doc, path, kids) && u in WalkAll(doc, path, ancestry, kids)
    requires Container(FindNode(doc.nodes, Last(path)).value.kind)
    ensures Leads(doc, path, q) && Last(q) == u.node && UnitOk(doc, u)
    ensures |q| > |path| && exists n :: n in kids && n.id == q[|path|]
    decreases |doc.nodes| + 1 - |path|, 0, |kids|
  {
    var kid := kids[0];
    PathExtends(doc, path, kid);
    if u in Walk(doc, path + [kid.id], ancestry) {
      q := WalkSound(doc, path + [kid.id], ancestry, u);
      assert q[|path|] == kid.id && path <= q;
    } else {
      q := WalkAllSound(doc, path, ancestry, kids[1..], u);
    }
  }

  lemma FoundIn(a: seq<Unit>, b: seq<Unit>, id: nat)
    ensures Found(a + b, id) <==> Found(a, id) || Found(b, id)
  {
    if k :| 0 <= k < |a| && a[k].node == id { assert (a + b)[k].node == id; }
    if k :| 0 <= k < |b| && b[k].node == id { assert (a + b)[|a| + k].node == id; }
  }

  lemma {:induction false} WalkComplete(doc: Doc, path: seq<nat>, ancestry: seq<nat>, q: seq<nat>)
    requires WellFormed(doc) && PathOk(doc, path) && Leads(doc, path, q)
    ensures Found(Walk(doc, path, ancestry), Last(q))
    decreases |doc.nodes| + 1 - |path|, 1, 0
  {
    var node := FindNode(doc.nodes, Last(path)).value;
    if |q| > |path| {
      ChildrenExact(doc.nodes, node.id);
      PathBounded(doc, path);
      assert FindNode(doc.nodes, q[|path|]).value.parent == Some(q[|path| - 1]) == Some(node.id);
      WalkAllComplete(doc, path, if Anchor(node.kind) then ancestry + [node.id] else ancestry,
                      Children(doc.nodes, node.id), q);
    } else {
      assert q == path;
      assert Walk(doc, path, ancestry)[0].node == Last(q);
    }
  }

  lemma {:induction false} WalkAllComplete(doc: Doc, path: seq<nat>, ancestry: seq<nat>, kids: seq<Node>, q: seq<nat>)
    requires WellFormed(doc) && PathOk(doc, path) && KidsOf(doc, path, kids) && Leads(doc, path, q)
    requires |q| > |path| && FindNode(doc.nodes, q[|path|]).value in kids
    ensures Found(WalkAll(doc, path, ancestry, kids), Last(q))
    decreases |doc.nodes| + 1 - |path|, 0, |kids|
  {
    var kid := kids[0];
    PathExtends(doc, path, kid);
    var first, rest := Walk(doc, path + [kid.id], ancestry), WalkAll(doc, path, ancestry, kids[1..]);
    if q[|path|] == kid.id {
      assert path + [kid.id] <= q;
      WalkComplete(doc, path + [kid.id], ancestry, q);
    } else {
      WalkAllComplete(doc, path, ancestry, kids[1..], q);
    }
    FoundIn(first, rest, Last(q));
  }

  lemma {:induction false} WalkDistinct(doc: Doc, path: seq<nat>, ancestry: seq<nat>)
    requires WellFormed(doc) && PathOk(doc, path)
    ensures DistinctNodes(Walk(doc, path, ancestry))
    decreases |doc.nodes| + 1 - |path|, 1, 0
  {
    var node := FindNode(doc.nodes, Last(path)).value;
    if Container(node.kind) {
      ChildrenExact(doc.nodes, node.id);
      PathBounded(doc, path);
      WalkAllDistinct(doc, path, if Anchor(node.kind) then ancestry + [node.id] else ancestry,
                      Children(doc.nodes, node.id));
    }
  }

  lemma {:induction false} WalkAllDistinct(doc: Doc, path: seq<nat>, ancestry: seq<nat>, kids: seq<Node>)
    requires WellFormed(doc) && PathOk(doc, path) && KidsOf(doc, path, kids)
    requires Container(FindNode(doc.nodes, Last(path)).value.kind)
    ensures DistinctNodes(WalkAll(doc, path, ancestry, kids))
    decreases |doc.nodes| + 1 - |path|, 0, |kids|
  {
    if kids != [] {
      var kid := kids[0];
      PathExtends(doc, path, kid);
      var first, rest := Walk(doc, path + [kid.id], ancestry), WalkAll(doc, path, ancestry, kids[1..]);
      WalkDistinct(doc, path + [kid.id], ancestry);
      WalkAllDistinct(doc, path, ancestry, kids[1..]);
      forall i, j | 0 <= i < |first| && 0 <= j < |rest| ensures first[i].node != rest[j].node {
        var p := WalkSound(doc, path + [kid.id], ancestry, first[i]);
        var q := WalkAllSound(doc, path, ancestry, kids[1..], rest[j]);
        if first[i].node == rest[j].node {
          PathUnique(doc, p, q);
          assert false;
        }
      }
    }
  }

  // ------------------------------------------------------------- document order

  /** Where the node table lists an id. */
  function Position(nodes: seq<Node>, id: nat): nat {
    if nodes == [] then 0
    else if nodes[|nodes| - 1].id == id then |nodes| - 1
    else Position(nodes[..|nodes| - 1], id)
  }

  /** The order of siblings: child order, then document order. */
  predicate Precedes(nodes: seq<Node>, a: Node, b: Node) {
    a.order < b.order || (a.order == b.order && Position(nodes, a.id) < Position(nodes, b.id))
  }

  ghost predicate Stable(nodes: seq<Node>, kids: seq<Node>) {
    forall i, j :: 0 <= i < j < |kids| ==> Precedes(nodes, kids[i], kids[j])
  }

  lemma {:induction false} PositionBefore(nodes: seq<Node>, n: Node)
    requires n in nodes
    ensures Position(nodes, n.id) < |nodes|
  {
    if nodes[|nodes| - 1].id != n.id {
      PositionBefore(nodes[..|nodes| - 1], n);
    }
  }

  /** A node listed after all of them goes behind those of its own order. */
  lemma {:induction false} InsertStable(nodes: seq<Node>, sorted: seq<Node>, n: Node)
    requires Stable(nodes, sorted) && forall m :: m in sorted ==> Position(nodes, m.id) < Position(nodes, n.id)
    ensures Stable(nodes, InsertByOrder(sorted, n))
  {
    if sorted == [] || sorted[|sorted| - 1].order <= n.order {
      forall i | 0 <= i < |sorted| ensures Precedes(nodes, sorted[i], n) {
        assert sorted[i] in sorted;
        if i < |sorted| - 1 { assert Precedes(nodes, sorted[i], sorted[|sorted| - 1]); }
      }
    } else {
      var front, last := sorted[..|sorted| - 1], sorted[|sorted| - 1];
      assert forall m :: m in front ==> m in sorted;
      InsertStable(nodes, front, n);
      InsertMembers(front, n);
      var r := InsertByOrder(front, n);
      forall i | 0 <= i < |r| ensures Precedes(nodes, r[i], last) {
        assert r[i] in r;
        if r[i] != n {
          var k :| 0 <= k < |front| && front[k] == r[i];
          assert Precedes(nodes, sorted[k], sorted[|sorted| - 1]);
        }
      }
    }
  }

  lemma StableWider(nodes: seq<Node>, last: Node, kids: seq<Node>)
    requires Stable(nodes, kids) && forall k :: k in kids ==> k.id != last.id
    ensures Stable(nodes + [last], kids)
  {
    assert (nodes + [last])[..|nodes|] == nodes;
    forall i, j | 0 <= i < j < |kids| ensures Precedes(nodes + [last], kids[i], kids[j]) {
      assert kids[i] in kids && kids[j] in kids;
      assert Precedes(nodes, kids[i], kids[j]);
    }
  }

  /** Children come in sibling order: sorting keeps document order among equals. */
  lemma {:induction false} ChildrenStable(nodes: seq<Node>, id: nat)
    requires DistinctIds(nodes)
    ensures Stable(nodes, Children(nodes, id))
  {
    if nodes != [] {
      var front, last := nodes[..|nodes| - 1], nodes[|nodes| - 1];
      assert nodes == front + [last];
      var before := Children(front, id);
      ChildrenStable(front, id);
      ChildrenExact(front, id);
      assert forall m :: m in front ==> m.id != last.id;
      StableWider(front, last, before);
      if last.parent == Some(id) {
        forall m | m in before ensures Position(nodes, m.id) < Position(nodes, last.id) {
          PositionBefore(front, m);
        }
        InsertStable(nodes, before, last);
      }
    }
  }

  /** The paths part at position `k`, the first one towards the earlier sibling. */
  ghost predicate PartAt(doc: Doc, p: seq<nat>, q: seq<nat>, k: nat) {
    && k < |p| && k < |q| && p[..k] == q[..k]
    && FindNode(doc.nodes, p[k]).Some? && FindNode(doc.nodes, q[k]).Some?
    && Precedes(doc.nodes, FindNode(doc.nodes, p[k]).value, FindNode(doc.nodes, q[k]).value)
  }

  /** The list has `u` somewhere before `v`. */
  ghost predicate ComesBefore(units: seq<Unit>, u: Unit, v: Unit) {
    exists i, j :: 0 <= i < j < |units| && units[i] == u && units[j] == v
  }

  lemma JoinedBefore(first: seq<Unit>, rest: seq<Unit>, u: Unit, v: Unit)
    requires ComesBefore(first + rest, u, v)
    ensures ComesBefore(first, u, v) || ComesBefore(rest, u, v) || (u in first && v in rest)
  {
    var i, j :| 0 <= i < j < |first + rest| && (first + rest)[i] == u && (first + rest)[j] == v;
    if i >= |first| {
      assert rest[i - |first|] == u && rest[j - |first|] == v;
    }
  }

  /** A unit before another hangs under an earlier sibling where their paths part. */
  lemma {:induction false} WalkOrdered(doc: Doc, path: seq<nat>, ancestry: seq<nat>, u: Unit, v: Unit)
    returns (p: seq<nat>, q: seq<nat>, k: nat)
    requires WellFormed(doc) && PathOk(doc, path) && ComesBefore(Walk(doc, path, ancestry), u, v)
    ensures Leads(doc, path, p) && Last(p) == u.node && Leads(doc, path, q) && Last(q) == v.node
    ensures PartAt(doc, p, q, k)
    decreases |doc.nodes| + 1 - |path|, 1, 0
  {
    var node := FindNode(doc.nodes, Last(path)).value;
    ChildrenExact(doc.nodes, node.id);
    ChildrenStable(doc.nodes, node.id);
    PathBounded(doc, path);
    p, q, k := WalkAllOrdered(doc, path, if Anchor(node.kind) then ancestry + [node.id] else ancestry,
                              Children(doc.nodes, node.id), u, v);
  }

  lemma {:induction false} WalkAllOrdered(doc: Doc, path: seq<nat>, ancestry: seq<nat>, kids: seq<Node>, u: Unit,
                                          v: Unit)
    returns (p: seq<nat>, q: seq<nat>, k: nat)
    requires WellFormed(doc) && PathOk(doc, path) && KidsOf(doc, path, kids) && Stable(doc.nodes, kids)
    requires Container(FindNode(doc.nodes, Last(path)).value.kind) &&
             ComesBefore(WalkAll(doc, path, ancestry, kids), u, v)
    ensures Leads(doc, path, p) && Last(p) == u.node && Leads(doc, path, q) && Last(q) == v.node
    ensures PartAt(doc, p, q, k)
    decreases |doc.nodes| + 1 - |path|, 0, |kids|
  {
    var kid := kids[0];
    PathExtends(doc, path, kid);
    var first, rest := Walk(doc, path + [kid.id], ancestry), WalkAll(doc, path, ancestry, kids[1..]);
    JoinedBefore(first, rest, u, v);
    if ComesBefore(first, u, v) {
      p, q, k := WalkOrdered(doc, path + [kid.id], ancestry, u, v);
      LeadsUp(doc, path, kid.id, p);
      LeadsUp(doc, path, kid.id, q);
    } else if ComesBefore(rest, u, v) {
      p, q, k := WalkAllOrdered(doc, path, ancestry, kids[1..], u, v);
    } else {
      p, q := SiblingsPart(doc, path, ancestry, kids, u, v);
      k := |path|;
    }
  }

  lemma SiblingsPart(doc: Doc, path: seq<nat>, ancestry: seq<nat>, kids: seq<Node>, u: Unit, v: Unit)
    returns (p: seq<nat>, q: seq<nat>)
    requires WellFormed(doc) && PathOk(doc, path) && KidsOf(doc, path, kids) && Stable(doc.nodes, kids) && kids != []
    requires Container(FindNode(doc.nodes, Last(path)).value.kind) && PathOk(doc, path + [kids[0].id])
    requires u in Walk(doc, path + [kids[0].id], ancestry) && v in WalkAll(doc, path, ancestry, kids[1..])
    ensures Leads(doc, path, p) && Last(p) == u.node && Leads(doc, path, q) && Last(q) == v.node
    ensures PartAt(doc, p, q, |path|)
  {
    p := WalkSound(doc, path + [kids[0].id], ancestry, u);
    LeadsUp(doc, path, kids[0].id, p);
    q := WalkAllSound(doc, path, ancestry, kids[1..], v);
    Part(doc, path, kids, p, q);
  }

  lemma LeadsUp(doc: Doc, path: seq<nat>, id: nat, q: seq<nat>)
    requires PathOk(doc, path) && Container(FindNode(doc.nodes, Last(path)).value.kind)
    requires Leads(doc, path + [id], q)
    ensures Leads(doc, path, q) && |q| > |path| && q[|path|] == id
  {
    assert path <= path + [id] <= q;
  }

  lemma Part(doc: Doc, path: seq<nat>, kids: seq<Node>, p: seq<nat>, q: seq<nat>)
    requires WellFormed(doc) && PathOk(doc, path) && KidsOf(doc, path, kids) && Stable(doc.nodes, kids) && kids != []
    requires path <= p && |p| > |path| && p[|path|] == kids[0].id
    requires path <= q && |q| > |path| && exists n :: n in kids[1..] && n.id == q[|path|]
    ensures PartAt(doc, p, q, |path|)
  {
    var n :| n in kids[1..] && n.id == q[|path|];
    var m :| 1 <= m < |kids| && kids[m] == n;
    PathExtends(doc, path, kids[0]);
    PathExtends(doc, path, kids[m]);
    assert Precedes(doc.nodes, kids[0], kids[m]);
  }

  // ------------------------------------------------------------ section ancestry

  /** The sections, pages, slides and sheets on a path. */
  function AnchorsOn(doc: Doc, path: seq<nat>): seq<nat> {
    if path == [] then []
    else
      var n := |path| - 1;
      var node := FindNode(doc.nodes, path[n]);
      AnchorsOn(doc, path[..n])
      + if node.Some? && (node.value.kind.Section? || node.value.kind.Page? || node.value.kind.Slide?
                          || node.value.kind.Sheet?)
        then [path[n]] else []
  }

  /** A unit's ancestry is the anchors above it, and a heading's own id. */
  predicate AncestryOk(doc: Doc, u: Unit, q: seq<nat>)
    requires |q| > 0
  {
    u.ancestry == AnchorsOn(doc, q[..|q| - 1]) + if u.kind.Heading? then [u.node] else []
  }

  lemma {:induction false} WalkAncestry(doc: Doc, path: seq<nat>, u: Unit) returns (q: seq<nat>)
    requires WellFormed(doc) && PathOk(doc, path) && u in Walk(doc, path, AnchorsOn(doc, path[..|path| - 1]))
    ensures Leads(doc, path, q) && Last(q) == u.node && AncestryOk(doc, u, q)
    decreases |doc.nodes| + 1 - |path|, 1, 0
  {
    var node := FindNode(doc.nodes, Last(path)).value;
    if Container(node.kind) {
      ChildrenExact(doc.nodes, node.id);
      PathBounded(doc, path);
      assert AnchorsOn(doc, path[..|path| - 1]) + [] == AnchorsOn(doc, path[..|path| - 1]);
      q := WalkAllAncestry(doc, path, Children(doc.nodes, node.id), u);
    } else {
      q := path;
      assert AnchorsOn(doc, path[..|path| - 1]) + [] == AnchorsOn(doc, path[..|path| - 1]);
    }
  }

  lemma {:induction false} WalkAllAncestry(doc: Doc, path: seq<nat>, kids: seq<Node>, u: Unit) returns (q: seq<nat>)
    requires WellFormed(doc) && PathOk(doc, path) && KidsOf(doc, path, kids)
    requires Container(FindNode(doc.nodes, Last(path)).value.kind) &&
             u in WalkAll(doc, path, AnchorsOn(doc, path), kids)
    ensures Leads(doc, path, q) && Last(q) == u.node && AncestryOk(doc, u, q)
    decreases |doc.nodes| + 1 - |path|, 0, |kids|
  {
    var kid := kids[0];
    PathExtends(doc, path, kid);
    if u in Walk(doc, path + [kid.id], AnchorsOn(doc, path)) {
      assert (path + [kid.id])[..|path|] == path;
      q := WalkAncestry(doc, path + [kid.id], u);
      LeadsUp(doc, path, kid.id, q);
    } else {
      q := WalkAllAncestry(doc, path, kids[1..], u);
    }
  }

  // ---------------------------------------------------------------- all roots

  ghost function WalkRoots(doc: Doc, roots: seq<nat>): seq<Unit>
    requires WellFormed(doc) && forall r :: r in roots ==> r in doc.roots
  {
    if roots == [] then [] else Walk(doc, [roots[0]], []) + WalkRoots(doc, roots[1..])
  }

  ghost predicate LeadsFrom(doc: Doc, roots: seq<nat>, q: seq<nat>) {
    |q| > 0 && q[0] in roots && Leads(doc, [q[0]], q)
  }

  /** A node is shown when containers lead down to it from a listed root and it has text. */
  ghost predicate Shown(doc: Doc, roots: seq<nat>, id: nat) {
    exists q :: LeadsFrom(doc, roots, q) && Last(q) == id
  }

  lemma {:induction false} RootsExact(doc: Doc, roots: seq<nat>, id: nat)
    requires WellFormed(doc) && forall r :: r in roots ==> r in doc.roots
    ensures Found(WalkRoots(doc, roots), id) <==> Shown(doc, roots, id)
    decreases |roots|
  {
    if roots != [] {
      var first, rest := Walk(doc, [roots[0]], []), WalkRoots(doc, roots[1..]);
      RootsExact(doc, roots[1..], id);
      FoundIn(first, rest, id);
      if Found(first, id) {
        var k :| 0 <= k < |first| && first[k].node == id;
        var q := WalkSound(doc, [roots[0]], [], first[k]);
        assert LeadsFrom(doc, roots, q);
      }
      if Shown(doc, roots, id) {
        var q :| LeadsFrom(doc, roots, q) && Last(q) == id;
        if q[0] == roots[0] {
          WalkComplete(doc, [roots[0]], [], q);
        } else {
          assert LeadsFrom(doc, roots[1..], q);
        }
      }
    }
  }

  lemma {:induction false} RootsDistinct(doc: Doc, roots: seq<nat>)
    requires WellFormed(doc) && Distinct(roots) && forall r :: r in roots ==> r in doc.roots
    ensures DistinctNodes(WalkRoots(doc, roots))
    ensures forall u :: u in WalkRoots(doc, roots) ==> UnitOk(doc, u)
    decreases |roots|
  {
    if roots != [] {
      var first, rest := Walk(doc, [roots[0]], []), WalkRoots(doc, roots[1..]);
      RootsDistinct(doc, roots[1..]);
      WalkDistinct(doc, [roots[0]], []);
      forall u | u in first ensures UnitOk(doc, u) { var _ := WalkSound(doc, [roots[0]], [], u); }
      forall i, j | 0 <= i < |first| && 0 <= j < |rest| ensures first[i].node != rest[j].node {
        var p := WalkSound(doc, [roots[0]], [], first[i]);
        assert Found(rest, rest[j].node);
        RootsExact(doc, roots[1..], rest[j].node);
        var q :| LeadsFrom(doc, roots[1..], q) && Last(q) == rest[j].node;
        if first[i].node == rest[j].node {
          PathUnique(doc, p, q);
          var k :| 1 <= k < |roots| && roots[k] == q[0];
          assert false;
        }
      }
    }
  }

  /** Units come in document order: of an earlier root, or under an earlier sibling where their paths part. */
  lemma {:induction false} DocumentOrder(doc: Doc, roots: seq<nat>, u: Unit, v: Unit)
    returns (p: seq<nat>, q: seq<nat>, k: nat)
    requires WellFormed(doc) && (forall r :: r in roots ==> r in doc.roots) && ComesBefore(WalkRoots(doc, roots), u, v)
    ensures LeadsFrom(doc, roots, p) && Last(p) == u.node && LeadsFrom(doc, roots, q) && Last(q) == v.node
    ensures PartAt(doc, p, q, k) || EarlierRoot(roots, p[0], q[0])
    decreases |roots|
  {
    k := 0;
    var first, rest := Walk(doc, [roots[0]], []), WalkRoots(doc, roots[1..]);
    JoinedBefore(first, rest, u, v);
    if ComesBefore(first, u, v) {
      p, q, k := WalkOrdered(doc, [roots[0]], [], u, v);
    } else if ComesBefore(rest, u, v) {
      p, q, k := DocumentOrder(doc, roots[1..], u, v);
      if EarlierRoot(roots[1..], p[0], q[0]) {
        var m, n :| 0 <= m < n < |roots[1..]| && roots[1..][m] == p[0] && roots[1..][n] == q[0];
        assert roots[m + 1] == p[0] && roots[n + 1] == q[0];
      }
    } else {
      p := WalkSound(doc, [roots[0]], [], u);
      q := DocumentAncestry(doc, roots[1..], v);
      var n :| 0 <= n < |roots[1..]| && roots[1..][n] == q[0];
      assert roots[0] == p[0] && roots[n + 1] == q[0];
    }
  }

  ghost predicate EarlierRoot(roots: seq<nat>, a: nat, b: nat) {
    exists m, n :: 0 <= m < n < |roots| && roots[m] == a && roots[n] == b
  }

  /** Each unit carries the anchors on the path from its root. */
  lemma {:induction false} DocumentAncestry(doc: Doc, roots: seq<nat>, u: Unit) returns (q: seq<nat>)
    requires WellFormed(doc) && (forall r :: r in roots ==> r in doc.roots) && u in WalkRoots(doc, roots)
    ensures LeadsFrom(doc, roots, q) && Last(q) == u.node && AncestryOk(doc, u, q)
    decreases |roots|
  {
    if u in Walk(doc, [roots[0]], []) {
      assert [roots[0]][..0] == [];
      q := WalkAncestry(doc, [roots[0]], u);
    } else {
      q := DocumentAncestry(doc, roots[1..], u);
    }
  }

  /**
   The walk of a well-formed document emits each shown node exactly once and nothing else, each as
   one whole-text unit; every other node is passed over or unreachable.
   */
  lemma WalkIsExact(doc: Doc, id: nat)
    requires WellFormed(doc)
    ensures var units := WalkRoots(doc, doc.roots);
            && (Shown(doc, doc.roots, id) <==> exists k :: 0 <= k < |units| && units[k].node == id)
            && DistinctNodes(units)
            && (forall u :: u in units ==> UnitOk(doc, u))
  {
    RootsExact(doc, doc.roots, id);
    RootsDistinct(doc, doc.roots);
  }

  lemma WalkAllStep(doc: Doc, path: seq<nat>, ancestry: seq<nat>, kids: seq<Node>, k: nat)
    requires WellFormed(doc) && PathOk(doc, path) && KidsOf(doc, path, kids) && k < |kids|
    ensures PathOk(doc, path + [kids[k].id]) && |path| < |doc.nodes|
    ensures KidsOf(doc, path, kids[k..]) && KidsOf(doc, path, kids[k + 1..])
    ensures WalkAll(doc, path, ancestry, kids[k..])
         == Walk(doc, path + [kids[k].id], ancestry) + WalkAll(doc, path, ancestry, kids[k + 1..])
  {
    PathExtends(doc, path, kids[k]);
    assert kids[k..][0] == kids[k] && kids[k..][1..] == kids[k + 1..];
  }

  lemma WalkRootsStep(doc: Doc, roots: seq<nat>, k: nat)
    requires WellFormed(doc) && k < |roots| && forall r :: r in roots ==> r in doc.roots
    ensures PathOk(doc, [roots[k]])
    ensures WalkRoots(doc, roots[k..]) == Walk(doc, [roots[k]], []) + WalkRoots(doc, roots[k + 1..])
  {
    assert roots[k..][1..] == roots[k + 1..];
  }

  /** The walk's shared list of units. */
  class WalkContext {
    const doc: Doc
    var units: seq<Unit>

    constructor (doc: Doc)
      ensures this.doc == doc && units == []
    {
      this.doc := doc;
      units := [];
    }

    /** _walk_units. */
    method WalkUnits(id: nat, ancestry: seq<nat>, ghost path: seq<nat>)
      requires WellFormed(doc) && PathOk(doc, path) && Last(path) == id
      modifies this
      ensures units == old(units) + Walk(doc, path, ancestry)
      decreases |doc.nodes| + 1 - |path|
    {
      var node := FindNode(doc.nodes, id).value;
      if Container(node.kind) {
        var extended := if Anchor(node.kind) then ancestry + [node.id] else ancestry;
        var kids := Children(doc.nodes, id);
        ChildrenExact(doc.nodes, id);
        PathBounded(doc, path);
        ghost var rest := WalkAll(doc, path, extended, kids);
        assert kids[0..] == kids && KidsOf(doc, path, kids);
        for k := 0 to |kids|
          invariant KidsOf(doc, path, kids) && KidsOf(doc, path, kids[k..])
          invariant rest == WalkAll(doc, path, extended, kids[k..])
          invariant old(units) + Walk(doc, path, ancestry) == units + rest
        {
          WalkAllStep(doc, path, extended, kids, k);
          ghost var part := Walk(doc, path + [kids[k].id], extended);
          ghost var next := WalkAll(doc, path, extended, kids[k + 1..]);
          Associate(units, part, next);
          WalkUnits(kids[k].id, extended, path + [kids[k].id]);
          rest := next;
        }
        return;
      }
      var text := TextOf(doc, node);
      if NonBlank(text) {
        units := units + [UnitOf(doc, node, ancestry)];
      }
    }
  }

  /** _collect_units. */
  method CollectUnits(doc: Doc) returns (units: seq<Unit>)
    requires WellFormed(doc)
    ensures units == WalkRoots(doc, doc.roots)
  {
    var context := new WalkContext(doc);
    ghost var rest := WalkRoots(doc, doc.roots);
    assert doc.roots[0..] == doc.roots;
    for k := 0 to |doc.roots|
      invariant context.doc == doc && fresh(context)
      invariant rest == WalkRoots(doc, doc.roots[k..])
      invariant WalkRoots(doc, doc.roots) == context.units + rest
    {
      WalkRootsStep(doc, doc.roots, k);
      ghost var part := Walk(doc, [doc.roots[k]], []);
      ghost var next := WalkRoots(doc, doc.roots[k + 1..]);
      Associate(context.units, part, next);
      context.WalkUnits(doc.roots[k], [], [doc.roots[k]]);
      rest := next;
    }
    units := context.units;
  }
}
