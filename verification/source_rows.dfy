/** Which earlier rows a sheet row continues from (`getFromRowNumbers`,
    `getFromNodes`), and the router node reached from them
    (`getRouterFromRow`). Sheet row numbers start at 2: row number `n` is
    the row at index `n - 2`. */
module SourceRows {
  import opened JsValues
  import opened FlowExport

  /** The `From` cell: absent, a number, a text, or a cell of another type. */
  datatype FromCell = Absent | Num(value: int) | Text(text: string) | Boolean(flag: bool)

  /** One row of a conversation sheet as the sheet reader yields it. The
      `choices` are the cells `Choice_1`, `Choice_2`, … in order. */
  datatype SheetRow = SheetRow(
    rowType: string,
    from: FromCell,
    condition: Option<string>,
    conditionVar: Option<string>,
    messageText: Option<string>,
    media: Option<string>,
    choices: seq<Option<string>>)

  /** A row during the pass over its sheet: its cells, and the `NodeUUID` and
      `rapidProNode` fields the pass writes into it. */
  datatype ConversationRow = ConversationRow(cells: SheetRow, nodeUuid: Option<Uuid>, rapidProNode: Option<Node>)

  /** An expression's value, or the TypeError it throws on reading a
      property of `undefined`. */
  datatype Result<+T> = Ok(value: T) | TypeError

  /** The cells of a sequence of rows. */
  function CellsOf(rows: seq<ConversationRow>): (sheet: seq<SheetRow>)
    ensures |sheet| == |rows|
    ensures forall j :: 0 <= j < |rows| ==> sheet[j] == rows[j].cells
  {
    seq(|rows|, j requires 0 <= j < |rows| => rows[j].cells)
  }

  /** Truthiness of the `From` cell. */
  predicate FromGiven(from: FromCell)
  {
    match from
    case Absent => false
    case Num(n) => n != 0
    case Text(s) => s != ""
    case Boolean(b) => b
  }

  /** `.map((fromStr) => Number.parseInt(fromStr))` */
  function ParseAll(tokens: seq<string>): (r: seq<Number>)
  {
    seq(|tokens|, k requires 0 <= k < |tokens| => ParseInt(tokens[k]))
  }

  /** `.filter((num) => num != NaN)`, as written. */
  function KeepUnequalToNaN(xs: seq<Number>): seq<Number>
  {
    if xs == [] then []
    else (if LooselyUnequal(xs[0], NaN) then [xs[0]] else []) + KeepUnequalToNaN(xs[1..])
  }

  /** The filter drops nothing: every number, NaN included, is `!= NaN`. */
  lemma {:induction false} NaNFilterKeepsAll(xs: seq<Number>)
    ensures KeepUnequalToNaN(xs) == xs
  {
    if xs != [] {
      NaNFilterKeepsAll(xs[1..]);
      assert [xs[0]] + xs[1..] == xs;
    }
  }

  /** `getFromRowNumbers(row, rows)` for the row at `index` of its sheet
      (the position `rows.indexOf(row)` finds). */
  function FromRowNumbers(row: SheetRow, index: nat): (r: seq<Number>)
    ensures r != []
    ensures row.from.Num? && row.from.value != 0 ==> r == [Int(row.from.value)]
    ensures row.from.Text? && row.from.text != "" ==>
      var tokens := Split(row.from.text, ',');
      |r| == |tokens| && forall k :: 0 <= k < |r| ==> r[k] == ParseInt(tokens[k])
    ensures !FromGiven(row.from) || row.from.Boolean? ==> r == [Int(index + 2)]
  {
    match row.from
    case Num(n) =>
      if n != 0 then [Int(n)] else [Int(index + 2)]
    case Text(s) =>
      if s != "" then
        var parsed := ParseAll(Split(s, ','));
        NaNFilterKeepsAll(parsed);
        KeepUnequalToNaN(parsed)
      else [Int(index + 2)]
    case _ =>
      [Int(index + 2)]
  }

  /** `rows[x - 2]` is a row of a sheet of `count` rows. */
  predicate ValidRef(count: nat, x: Number)
  {
    x.Int? && 0 <= x.n - 2 < count
  }

  /** Every row number the row resolves to names a row of its sheet. */
  predicate FromResolves(row: SheetRow, index: nat, count: nat)
  {
    var refs := FromRowNumbers(row, index);
    forall k :: 0 <= k < |refs| ==> ValidRef(count, refs[k])
  }

  /** `node` is the node of one of the rows the row numbers `refs` name. */
  predicate NodeOfReferencedRow(rows: seq<ConversationRow>, refs: seq<Number>, node: Node)
  {
    exists k :: 0 <= k < |refs| && ValidRef(|rows|, refs[k]) && rows[refs[k].n - 2].rapidProNode == Some(node)
  }

  /** `refs.map((n) => rows[n - 2].rapidProNode).filter((node) => node !== undefined)` */
  function LookupNodes(rows: seq<ConversationRow>, refs: seq<Number>): (r: Result<seq<Node>>)
    ensures r.Ok? <==> forall k :: 0 <= k < |refs| ==> ValidRef(|rows|, refs[k])
    ensures r.Ok? ==> |r.value| <= |refs|
  {
    if refs == [] then Ok([])
    else if !ValidRef(|rows|, refs[0]) then TypeError
    else
      match LookupNodes(rows, refs[1..])
      case TypeError => TypeError
      case Ok(rest) =>
        var first := rows[refs[0].n - 2].rapidProNode;
        Ok((if first.Some? then [first.value] else []) + rest)
  }

  /** Every node the lookup yields is the node of one of the referenced rows. */
  lemma {:induction false} LookupFromReferenced(rows: seq<ConversationRow>, refs: seq<Number>)
    requires LookupNodes(rows, refs).Ok?
    ensures forall m :: 0 <= m < |LookupNodes(rows, refs).value| ==>
      NodeOfReferencedRow(rows, refs, LookupNodes(rows, refs).value[m])
  {
    if refs != [] {
      LookupFromReferenced(rows, refs[1..]);
      var rest := LookupNodes(rows, refs[1..]).value;
      var first := rows[refs[0].n - 2].rapidProNode;
      var nodes := (if first.Some? then [first.value] else []) + rest;
      assert LookupNodes(rows, refs).value == nodes;
      forall m | 0 <= m < |nodes| ensures NodeOfReferencedRow(rows, refs, nodes[m]) {
        if first.Some? && m == 0 {
          assert rows[refs[0].n - 2].rapidProNode == Some(nodes[m]);
        } else {
          var m' := if first.Some? then m - 1 else m;
          assert nodes[m] == rest[m'];
          var k :| 0 <= k < |refs[1..]| && ValidRef(|rows|, refs[1..][k]) && rows[refs[1..][k].n - 2].rapidProNode == Some(rest[m']);
          assert refs[1..][k] == refs[k + 1];
        }
      }
    }
  }

  /** A single row number yields the node of its row, if that row has one. */
  lemma LookupSingle(rows: seq<ConversationRow>, x: Number)
    requires ValidRef(|rows|, x)
    ensures LookupNodes(rows, [x]) ==
      Ok(if rows[x.n - 2].rapidProNode.Some? then [rows[x.n - 2].rapidProNode.value] else [])
  {
    assert [x][1..] == [];
    assert LookupNodes(rows, []) == Ok([]);
    var first := rows[x.n - 2].rapidProNode;
    var head := if first.Some? then [first.value] else [];
    assert LookupNodes(rows, [x]) == Ok(head + []);
    assert head + [] == head;
  }

  /** The lookup of a list of row numbers is the lookup of its first part
      followed by the lookup of the rest: nodes keep the order of the row
      numbers, and rows without a node are skipped where they stand. */
  lemma {:induction false} LookupConcat(rows: seq<ConversationRow>, a: seq<Number>, b: seq<Number>)
    requires forall k :: 0 <= k < |a| ==> ValidRef(|rows|, a[k])
    requires forall k :: 0 <= k < |b| ==> ValidRef(|rows|, b[k])
    ensures LookupNodes(rows, a + b) == Ok(LookupNodes(rows, a).value + LookupNodes(rows, b).value)
  {
    if a == [] {
      assert a + b == b;
      assert LookupNodes(rows, a) == Ok([]);
      assert [] + LookupNodes(rows, b).value == LookupNodes(rows, b).value;
    } else {
      assert (a + b)[0] == a[0];
      assert (a + b)[1..] == a[1..] + b;
      LookupConcat(rows, a[1..], b);
      var first := rows[a[0].n - 2].rapidProNode;
      var head := if first.Some? then [first.value] else [];
      assert LookupNodes(rows, a).value == head + LookupNodes(rows, a[1..]).value;
      assert head + (LookupNodes(rows, a[1..]).value + LookupNodes(rows, b).value) ==
             (head + LookupNodes(rows, a[1..]).value) + LookupNodes(rows, b).value;
    }
  }

  /** When every referenced row has a node, the lookup yields exactly those
      nodes, in the order of the references. */
  lemma {:induction false} LookupAllPresent(rows: seq<ConversationRow>, refs: seq<Number>)
    requires forall k :: 0 <= k < |refs| ==>
      ValidRef(|rows|, refs[k]) && rows[refs[k].n - 2].rapidProNode.Some?
    ensures LookupNodes(rows, refs).Ok?
    ensures |LookupNodes(rows, refs).value| == |refs|
    ensures forall k :: 0 <= k < |refs| ==>
      rows[refs[k].n - 2].rapidProNode == Some(LookupNodes(rows, refs).value[k])
  {
    if refs != [] {
      LookupAllPresent(rows, refs[1..]);
      var rest := LookupNodes(rows, refs[1..]).value;
      var first := rows[refs[0].n - 2].rapidProNode.value;
      LookupSingle(rows, refs[0]);
      LookupConcat(rows, [refs[0]], refs[1..]);
      assert [refs[0]] + refs[1..] == refs;
      var all := [first] + rest;
      assert LookupNodes(rows, refs) == Ok(all);
      forall k | 0 <= k < |refs|
        ensures rows[refs[k].n - 2].rapidProNode == Some(all[k])
      {
        if k > 0 {
          assert refs[k] == refs[1..][k - 1] && all[k] == rest[k - 1];
        }
      }
    }
  }

  /** When no referenced row has a node yet, the lookup yields nothing. */
  lemma {:induction false} LookupAllMissing(rows: seq<ConversationRow>, refs: seq<Number>)
    requires forall k :: 0 <= k < |refs| ==>
      ValidRef(|rows|, refs[k]) && rows[refs[k].n - 2].rapidProNode.None?
    ensures LookupNodes(rows, refs) == Ok([])
  {
    if refs != [] {
      LookupAllMissing(rows, refs[1..]);
    }
  }

  /** `getFromNodes(row, rows)` for the row at index `i`. */
  function FromNodes(rows: seq<ConversationRow>, i: nat): (r: Result<seq<Node>>)
    requires i < |rows|
    ensures r.Ok? <==> FromResolves(rows[i].cells, i, |rows|)
    ensures r.Ok? ==> forall m :: 0 <= m < |r.value| ==>
      NodeOfReferencedRow(rows, FromRowNumbers(rows[i].cells, i), r.value[m])
  {
    var refs := FromRowNumbers(rows[i].cells, i);
    if LookupNodes(rows, refs).Ok? then LookupFromReferenced(rows, refs); LookupNodes(rows, refs)
    else LookupNodes(rows, refs)
  }

  /** The node a wired first exit leads to. */
  function Target(n: Node): Uuid
    requires FirstExitWired(n)
  {
    n.exits[0].destination.uuid
  }

  /** The chain of `getRouterFromRow` after `getFromNodes`: keep the nodes
      whose first exit is wired, look their destinations up in `byId`, keep
      those with a router, and take the first. */
  function FirstRouter(nodes: seq<Node>, byId: map<Uuid, Node>): (r: Result<Option<Node>>)
    ensures r.TypeError? <==>
      exists k :: 0 <= k < |nodes| && FirstExitWired(nodes[k]) && Target(nodes[k]) !in byId
    ensures (forall k :: 0 <= k < |nodes| ==> !FirstExitWired(nodes[k])) ==> r == Ok(None)
    ensures r.Ok? && r.value.None? ==>
      forall k :: 0 <= k < |nodes| && FirstExitWired(nodes[k]) ==> byId[Target(nodes[k])].router.None?
    ensures r.Ok? && r.value.Some? ==>
      r.value.value.router.Some? &&
      exists k :: 0 <= k < |nodes| && FirstExitWired(nodes[k]) && byId[Target(nodes[k])] == r.value.value &&
        forall j :: 0 <= j < k && FirstExitWired(nodes[j]) ==> byId[Target(nodes[j])].router.None?
  {
    if nodes == [] then Ok(None)
    else
      var rest := FirstRouter(nodes[1..], byId);
      if !FirstExitWired(nodes[0]) then rest
      else if Target(nodes[0]) !in byId then TypeError
      else if rest.TypeError? then TypeError
      else if byId[Target(nodes[0])].router.Some? then Ok(Some(byId[Target(nodes[0])]))
      else rest
  }

  /** `getRouterFromRow(row, rows, nodesById)` for the row at index `i`. */
  function RouterFromRow(rows: seq<ConversationRow>, i: nat, byId: map<Uuid, Node>): (r: Result<Option<Node>>)
    requires i < |rows|
    ensures var from := FromNodes(rows, i);
      r.TypeError? <==> (from.TypeError? ||
        exists k :: 0 <= k < |from.value| && FirstExitWired(from.value[k]) && Target(from.value[k]) !in byId)
    ensures var from := FromNodes(rows, i);
      r.Ok? && r.value.None? ==>
        forall k :: 0 <= k < |from.value| && FirstExitWired(from.value[k]) ==> byId[Target(from.value[k])].router.None?
    ensures var from := FromNodes(rows, i);
      r.Ok? && r.value.Some? ==>
        r.value.value.router.Some? &&
        exists k :: 0 <= k < |from.value| && FirstExitWired(from.value[k]) && byId[Target(from.value[k])] == r.value.value &&
          forall j :: 0 <= j < k && FirstExitWired(from.value[j]) ==> byId[Target(from.value[j])].router.None?
  {
    match FromNodes(rows, i)
    case TypeError => TypeError
    case Ok(nodes) => FirstRouter(nodes, byId)
  }

  // ---------------------------------------------------------------------
  // Properties of source-row resolution

  function Numerals(targets: seq<nat>): (r: seq<string>)
  {
    seq(|targets|, k requires 0 <= k < |targets| => Numeral(targets[k]))
  }

  function Ints(targets: seq<nat>): (r: seq<Number>)
  {
    seq(|targets|, k requires 0 <= k < |targets| => Int(targets[k]))
  }

  /** A `From` text listing row numbers, comma separated, resolves to
      exactly those numbers, in order, wherever the row stands. */
  lemma ExplicitFromRoundTrip(row: SheetRow, index: nat, targets: seq<nat>)
    requires targets != []
    requires row.from == Text(Join(Numerals(targets), ','))
    ensures FromRowNumbers(row, index) == Ints(targets)
  {
    var numerals := Numerals(targets);
    forall k | 0 <= k < |numerals| ensures ',' !in numerals[k] {
      assert AllDigits(numerals[k]);
    }
    SplitJoin(numerals, ',');
    assert |Join(numerals, ',')| >= |numerals[0]| > 0;
    var r := FromRowNumbers(row, index);
    forall k | 0 <= k < |targets| ensures r[k] == Int(targets[k]) {
      ParseNumeral(targets[k]);
    }
  }

  /** Without a (truthy) `From`, a row continues from its own sheet row:
      `getFromNodes` yields the row's own node, if it has one yet. */
  lemma ImplicitFromIsOwnRow(rows: seq<ConversationRow>, i: nat)
    requires i < |rows|
    requires !FromGiven(rows[i].cells.from)
    ensures FromNodes(rows, i) ==
      Ok(if rows[i].rapidProNode.Some? then [rows[i].rapidProNode.value] else [])
  {
    var refs := FromRowNumbers(rows[i].cells, i);
    assert refs == [Int(i + 2)];
    assert refs[1..] == [];
    assert LookupNodes(rows, refs[1..]) == Ok([]);
    assert ValidRef(|rows|, refs[0]) && refs[0].n - 2 == i;
    var own := rows[i].rapidProNode;
    var mine := if own.Some? then [own.value] else [];
    assert LookupNodes(rows, refs) == Ok(mine + []);
    assert mine + [] == mine;
  }

  /** While no row's node has a wired first exit, the router lookup finds
      nothing: it yields none when every row number resolves and throws
      otherwise. */
  lemma RouterLookupWhileUnwired(rows: seq<ConversationRow>, i: nat, byId: map<Uuid, Node>)
    requires i < |rows|
    requires forall j :: 0 <= j < |rows| && rows[j].rapidProNode.Some? ==>
      !FirstExitWired(rows[j].rapidProNode.value)
    ensures RouterFromRow(rows, i, byId) ==
      if FromResolves(rows[i].cells, i, |rows|) then Ok(None) else TypeError
  {
    var refs := FromRowNumbers(rows[i].cells, i);
    var found := LookupNodes(rows, refs);
    if found.Ok? {
      LookupFromReferenced(rows, refs);
      forall m | 0 <= m < |found.value| ensures !FirstExitWired(found.value[m]) {
        var k :| 0 <= k < |refs| && ValidRef(|rows|, refs[k]) && rows[refs[k].n - 2].rapidProNode == Some(found.value[m]);
      }
    }
  }
}
