/** The records of the skill-tree editor: statuses, resources, node data,
    edges, the user profile and roadmap templates (types.ts). */
module SkillTypes {

  datatype Option<+T> = None | Some(value: T)

  /** The progression state of one skill: exactly one of four values. */
  datatype SkillStatus = Locked | Available | InProgress | Completed

  /** The kind of a learning resource. */
  datatype ResourceType = Article | Video | Course | Book

  datatype Resource = Resource(id: string, title: string, url: string, kind: ResourceType)

  /** What a skill node carries besides its id; `icon` is optional. */
  datatype SkillNodeData = SkillNodeData(
    title: string,  // the `label` field
    description: string,
    status: SkillStatus,
    xpReward: int,
    resources: seq<Resource>,
    level: int,
    icon: Option<string>)

  /** A node of the canvas: its id and its data record. */
  datatype SkillNode = SkillNode(id: string, data: SkillNodeData)

  /** A prerequisite edge: the skill `target` requires the skill `source`. */
  datatype SkillEdge = SkillEdge(id: string, source: string, target: string)

  /** The user profile: five numeric counters. */
  datatype UserStats = UserStats(
    totalXp: int,
    level: int,
    completedSkills: int,
    currentStreak: int,
    skillsInProgress: int)

  /** A named roadmap. Its node and edge lists are untyped in the source, so
      nothing about them (unique ids, edges naming nodes) is guaranteed. */
  datatype SkillTreeTemplate = SkillTreeTemplate(
    id: string,
    name: string,
    description: string,
    nodes: seq<SkillNode>,
    edges: seq<SkillEdge>)

  /** The node with only its status replaced. */
  function WithStatus(n: SkillNode, s: SkillStatus): SkillNode {
    n.(data := n.data.(status := s))
  }

  predicate HasNode(nodes: seq<SkillNode>, id: string) {
    exists n :: n in nodes && n.id == id
  }

  /** No two nodes of the graph share an id. */
  ghost predicate UniqueIds(nodes: seq<SkillNode>) {
    forall i, j :: 0 <= i < j < |nodes| ==> nodes[i].id != nodes[j].id
  }

  /** Every edge names nodes that exist. */
  ghost predicate EdgesWellFormed(nodes: seq<SkillNode>, edges: seq<SkillEdge>) {
    forall e :: e in edges ==> HasNode(nodes, e.source) && HasNode(nodes, e.target)
  }
}
