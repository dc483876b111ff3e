/** The built-in roadmap templates and the XP-per-level constant
    (constants.ts). */
module Constants {
  import opened SkillTypes

  /** Experience needed per level. */
  const XpPerLevel: int := 1000

  function NodeData(title: string, description: string, status: SkillStatus, xpReward: int, level: int, resources: seq<Resource>): SkillNodeData {
    SkillNodeData(title, description, status, xpReward, resources, level, None)
  }

  /** The "Frontend Architect" template: 1 -> {2, 3} -> 4. */
  function FrontendTemplate(): SkillTreeTemplate {
    SkillTreeTemplate(
      "frontend-dev",
      "Frontend Architect",
      "Master the art of building modern web interfaces.",
      [ SkillNode("1", NodeData("HTML & CSS Foundations", "The backbone of the web. Structure and Style.",
                                Available, 100, 1,
                                [ Resource("r1", "MDN Web Docs", "https://developer.mozilla.org", Article),
                                  Resource("r2", "CSS Diner", "https://flukeout.github.io", Course) ])),
        SkillNode("2", NodeData("JavaScript Basics", "Programming logic and DOM manipulation.",
                                Locked, 200, 2, [])),
        SkillNode("3", NodeData("Modern CSS (Tailwind)", "Utility-first CSS frameworks for rapid UI development.",
                                Locked, 150, 2, [])),
        SkillNode("4", NodeData("React Essentials", "Components, Hooks, and State management.",
                                Locked, 500, 3, [])) ],
      [ SkillEdge("e1-2", "1", "2"),
        SkillEdge("e1-3", "1", "3"),
        SkillEdge("e2-4", "2", "4"),
        SkillEdge("e3-4", "3", "4") ])
  }

  /** The "Data Science Path" template: d1 -> d2. */
  function DataScienceTemplate(): SkillTreeTemplate {
    SkillTreeTemplate(
      "data-scientist",
      "Data Science Path",
      "From raw data to actionable insights and ML models.",
      [ SkillNode("d1", NodeData("Python Foundations", "The primary language for data analysis.",
                                 Available, 150, 1, [])),
        SkillNode("d2", NodeData("Statistics & Math", "Probability, linear algebra, and calculus.",
                                 Locked, 300, 2, [])) ],
      [ SkillEdge("ed1-2", "d1", "d2") ])
  }

  /** The template library, in the order the header lists it. */
  function InitialTemplates(): seq<SkillTreeTemplate> {
    [FrontendTemplate(), DataScienceTemplate()]
  }

  /** The frontend template is well formed: ids 1-4 are distinct, every edge
      joins two of them, every reward is positive. */
  lemma FrontendWellFormed()
    ensures var t := FrontendTemplate();
            UniqueIds(t.nodes) && EdgesWellFormed(t.nodes, t.edges)
            && forall n :: n in t.nodes ==> n.data.xpReward > 0
  {
    var t := FrontendTemplate();
    assert t.nodes[0].id == "1" && t.nodes[1].id == "2" && t.nodes[2].id == "3" && t.nodes[3].id == "4";
    assert HasNode(t.nodes, "1") && HasNode(t.nodes, "2") && HasNode(t.nodes, "3") && HasNode(t.nodes, "4") by {
      assert t.nodes[0] in t.nodes && t.nodes[1] in t.nodes && t.nodes[2] in t.nodes && t.nodes[3] in t.nodes;
    }
  }

  /** The data-science template is well formed: d1 and d2, one edge d1 -> d2,
      positive rewards. */
  lemma DataScienceWellFormed()
    ensures var t := DataScienceTemplate();
            UniqueIds(t.nodes) && EdgesWellFormed(t.nodes, t.edges)
            && forall n :: n in t.nodes ==> n.data.xpReward > 0
  {
    var t := DataScienceTemplate();
    assert HasNode(t.nodes, "d1") && HasNode(t.nodes, "d2") by {
      assert t.nodes[0] in t.nodes && t.nodes[1] in t.nodes;
    }
  }

  /** Template ids are distinct, so a lookup by id is unambiguous. */
  lemma TemplateIdsDistinct()
    ensures forall i, j :: 0 <= i < j < |InitialTemplates()| ==> InitialTemplates()[i].id != InitialTemplates()[j].id
  {
  }
}
