/** The chatbot-flow export the builder produces: nodes with actions, an
    optional router, and exits; and the flow that owns them. Field names
    follow the export format (`destination_uuid` is `destination`, and so on). */
module FlowExport {
  import opened JsValues

  /** A node, exit, category, case or action identifier. Each one is drawn
      from a supply of fresh identifiers. */
  type Uuid = nat

  /** `destination_uuid`: `undefined`, `null` or the uuid of a node. */
  datatype Destination = Undefined | Null | To(uuid: Uuid)

  datatype Exit = Exit(uuid: Uuid, destination: Destination)

  datatype Category = Category(exitUuid: Uuid, name: Option<string>, uuid: Uuid)

  datatype Case = Case(arguments: seq<Option<string>>, categoryUuid: Uuid, caseType: string, uuid: Uuid)

  datatype Router = Router(
    routerType: string,
    defaultCategoryUuid: Option<Uuid>,
    cases: seq<Case>,
    categories: seq<Category>,
    operand: string)

  datatype Action = Action(
    attachments: seq<string>,
    text: Option<string>,
    actionType: string,
    quickReplies: seq<Option<string>>,
    uuid: Uuid)

  datatype Node = Node(uuid: Uuid, actions: seq<Action>, router: Option<Router>, exits: seq<Exit>)

  /** A flow; its `_ui` and `localization` fields are always null and are not represented. */
  datatype Flow = Flow(
    name: string,
    uuid: string,
    specVersion: string,
    language: string,
    flowType: string,
    nodes: seq<Node>,
    revision: int,
    expireAfterMinutes: int,
    metadataRevision: int)

  /** The flow a conversation sheet starts with. */
  function NewFlow(sheetName: string): (f: Flow)
    ensures f.name == sheetName && f.nodes == []
  {
    Flow(sheetName, sheetName + "_id", "v1", "english", "type", [], 0, 60, 0)
  }

  /** Sheets with different names start flows with different uuids. */
  lemma NewFlowIdsDistinct(a: string, b: string)
    requires a != b
    ensures NewFlow(a).uuid != NewFlow(b).uuid
  {
    if |a| == |b| {
      assert (a + "_id")[..|a|] == a;
      assert (b + "_id")[..|b|] == b;
    } else {
      assert |a + "_id"| != |b + "_id"|;
    }
  }

  /** The node's first exit leads somewhere (its `destination_uuid` is truthy). */
  predicate FirstExitWired(n: Node)
  {
    |n.exits| > 0 && n.exits[0].destination.To?
  }

  /** Every case of the node's router names one of its categories, and every
      category names one of the node's exits. */
  predicate RouterConsistent(n: Node)
  {
    n.router.Some? ==>
      (forall c :: c in n.router.value.cases ==>
        exists g :: g in n.router.value.categories && g.uuid == c.categoryUuid) &&
      (forall g :: g in n.router.value.categories ==>
        exists e :: e in n.exits && e.uuid == g.exitUuid)
  }
}
