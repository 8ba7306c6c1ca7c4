/**
 * The user-story page: five template stories generated for the selected
 * persona, deletion of a story, and a status change per story.
 */
module UserStories {
  import opened Seqs

  datatype Story = Story(
    id: int,
    title: string,
    story: string,
    acceptanceCriteria: seq<string>,
    priority: string,
    storyPoints: nat,
    status: string)

  /** The persona the page starts with. */
  const DefaultPersona := "end-user"

  /** The persona values offered by the persona cards. */
  const Personas := ["end-user", "admin", "developer", "manager"]

  /** The fixed part of a generated story: its topic, the goal, the criteria, priority and points. */
  datatype StoryTemplate = StoryTemplate(
    topic: string, goal: string, criteria: seq<string>, priority: string, points: nat)

  /** The five templates `generateStories` fills in, in order. */
  const Templates: seq<StoryTemplate> := [
    StoryTemplate("Account Creation", "to create an account easily so that I can access personalized features",
      ["User can register with email and password",
       "Email verification is sent upon registration",
       "User profile is created with basic information",
       "Confirmation message is displayed after successful registration"], "High", 5),
    StoryTemplate("Dashboard Access", "to view a personalized dashboard so that I can quickly access relevant information",
      ["Dashboard loads within 2 seconds",
       "Key metrics are displayed prominently",
       "Recent activity is shown",
       "Quick actions are easily accessible"], "High", 8),
    StoryTemplate("Settings Management", "to customize my settings so that the application works according to my preferences",
      ["User can update profile information",
       "Notification preferences can be configured",
       "Privacy settings are adjustable",
       "Changes are saved automatically"], "Medium", 5),
    StoryTemplate("Data Export", "to export my data so that I can use it in other applications",
      ["Multiple export formats available (CSV, JSON, PDF)",
       "Export process completes within 30 seconds",
       "Downloaded file contains all relevant data",
       "Export history is maintained"], "Low", 3),
    StoryTemplate("Collaboration Features", "to collaborate with team members so that we can work together efficiently",
      ["Users can share resources with team members",
       "Real-time collaboration is supported",
       "Comments and feedback can be added",
       "Activity notifications are sent to relevant users"], "High", 13)
  ]

  /**
   * A template filled in for `persona`: the title is the topic followed by
   * " for " and the persona, the story opens with "As a ", the persona and
   * ", I want ", and the rest of the template is copied; the story is to do.
   */
  function Fill(id: int, persona: string, t: StoryTemplate): (s: Story)
    ensures s.id == id && s.status == "Todo"
    ensures s.title == t.topic + " for " + persona
    ensures |s.story| >= |persona| + 14 && s.story[..|persona| + 14] == "As a " + persona + ", I want "
    ensures s.story[|persona| + 14..] == t.goal
    ensures s.acceptanceCriteria == t.criteria && s.priority == t.priority && s.storyPoints == t.points
  {
    var story := "As a " + persona + ", I want " + t.goal;
    assert story == ("As a " + persona + ", I want ") + t.goal;
    Story(id, t.topic + " for " + persona, story, t.criteria, t.priority, t.points, "Todo")
  }

  /** `generateStories`: the five templates filled in for `persona`, with ids 1 to 5. */
  function GenerateStories(persona: string): seq<Story> {
    seq(|Templates|, k requires 0 <= k < |Templates| => Fill(k + 1, persona, Templates[k]))
  }

  /**
   * The generated list has five stories with ids 1 to 5, all to do, each with
   * four acceptance criteria, and the `k`th is the `k`th template filled in
   * for the persona.
   */
  lemma GenerateStoriesShape(persona: string)
    ensures var r := GenerateStories(persona);
      && |r| == 5
      && (forall k :: 0 <= k < 5 ==> r[k].id == k + 1 && r[k].status == "Todo")
      && (forall k :: 0 <= k < 5 ==> |r[k].acceptanceCriteria| == 4)
      && (forall k :: 0 <= k < 5 ==> r[k].title == Templates[k].topic + " for " + persona)
  {
    var r := GenerateStories(persona);
    assert forall k :: 0 <= k < 5 ==> |Templates[k].criteria| == 4;
  }

  /** Distinct personas give distinct story lists: the persona ends every title. */
  lemma GenerateStoriesDependOnPersona(p: string, q: string, k: nat)
    requires p != q && k < 5
    ensures GenerateStories(p)[k].title != GenerateStories(q)[k].title
  {
    var t := Templates[k].topic + " for ";
    var tp, tq := GenerateStories(p)[k].title, GenerateStories(q)[k].title;
    assert tp == t + p && tq == t + q;
    assert tp[|t|..] == p && tq[|t|..] == q;
  }

  /** The test "does not carry `id`". */
  function IdIsNot(id: int): Story -> bool {
    (s: Story) => s.id != id
  }

  /** `deleteStory(id)`: `userStories.filter(story => story.id !== id)`. */
  function WithoutStory(xs: seq<Story>, id: int): seq<Story> {
    Filter(xs, IdIsNot(id))
  }

  /** Deleting removes exactly the stories with `id` and keeps the rest in order. */
  lemma WithoutStorySpec(xs: seq<Story>, id: int)
    ensures var r := WithoutStory(xs, id);
      && (forall s :: s in r <==> s in xs && s.id != id)
      && (exists idx: seq<int> :: |idx| == |r| && IncreasingBelow(idx, |xs|) &&
            forall k :: 0 <= k < |r| ==> r[k] == xs[idx[k]])
      && ((forall k :: 0 <= k < |xs| ==> xs[k].id != id) ==> r == xs)
  {
    FilterMembers(xs, IdIsNot(id));
    FilterIsOrderedSelection(xs, IdIsNot(id));
    var idx := KeptIndices(xs, IdIsNot(id));
    assert |idx| == |WithoutStory(xs, id)|;
    if forall k :: 0 <= k < |xs| ==> xs[k].id != id {
      FilterAllPass(xs, IdIsNot(id));
    }
  }

  /**
   * `updateStatus(id, status)`: the stories with `id` take the new status;
   * the length, the order, every other story and every other field stay as
   * they were.
   */
  function WithStatus(xs: seq<Story>, id: int, status: string): (r: seq<Story>)
    ensures |r| == |xs|
    ensures forall k :: 0 <= k < |xs| && xs[k].id != id ==> r[k] == xs[k]
    ensures forall k :: 0 <= k < |xs| && xs[k].id == id ==>
              r[k].status == status && r[k] == xs[k].(status := status)
  {
    seq(|xs|, k requires 0 <= k < |xs| => if xs[k].id == id then xs[k].(status := status) else xs[k])
  }

  /** Setting the same status twice is the same as setting it once. */
  lemma WithStatusIdempotent(xs: seq<Story>, id: int, status: string)
    ensures WithStatus(WithStatus(xs, id, status), id, status) == WithStatus(xs, id, status)
  {
  }

  /** A status change leaves every id where it was, so deleting by id afterwards removes the same positions. */
  lemma WithStatusKeepsIds(xs: seq<Story>, id: int, status: string, other: int)
    ensures |WithoutStory(WithStatus(xs, id, status), other)| == |WithoutStory(xs, other)|
  {
    var r := WithStatus(xs, id, status);
    FilterCountMonotone(r, xs, IdIsNot(other), IdIsNot(other));
    FilterCountMonotone(xs, r, IdIsNot(other), IdIsNot(other));
  }

  /** `getPriorityColor`: High, Medium and Low have their colours, anything else the default. */
  function PriorityColor(priority: string): (c: string)
    ensures priority == "High" ==> c == "#ef4444"
    ensures priority == "Medium" ==> c == "#f59e0b"
    ensures priority == "Low" ==> c == "#10b981"
    ensures c == "#6366f1" <==> priority !in {"High", "Medium", "Low"}
  {
    match priority
    case "High" => "#ef4444"
    case "Medium" => "#f59e0b"
    case "Low" => "#10b981"
    case _ => "#6366f1"
  }

  /** The generate button is enabled once an epic is entered. */
  predicate CanGenerate(epic: string) {
    epic != ""
  }

  /** The page's `epic`, `persona` and `userStories` state. */
  class StoryBoard {
    var epic: string
    var persona: string
    var userStories: seq<Story>

    constructor ()
      ensures epic == "" && persona == DefaultPersona && userStories == []
      ensures persona in Personas
    {
      epic := "";
      persona := DefaultPersona;
      userStories := [];
    }

    /** Typing the epic description. */
    method SetEpic(text: string)
      modifies this
      ensures epic == text && persona == old(persona) && userStories == old(userStories)
    {
      epic := text;
    }

    /** Clicking a persona card; the cards offer only the listed personas. */
    method SelectPersona(p: string)
      requires p in Personas
      modifies this
      ensures persona == p && epic == old(epic) && userStories == old(userStories)
    {
      persona := p;
    }

    /**
     * `generateStories`, once its simulated delay has passed: the list is
     * replaced. The button is disabled while the epic is empty.
     */
    method Generate()
      requires CanGenerate(epic)
      modifies this
      ensures userStories == GenerateStories(persona)
      ensures epic == old(epic) && persona == old(persona)
      ensures |userStories| == 5
    {
      userStories := GenerateStories(persona);
    }

    /** The delete button of a story. */
    method DeleteStory(id: int)
      modifies this
      ensures userStories == WithoutStory(old(userStories), id)
      ensures epic == old(epic) && persona == old(persona)
    {
      userStories := Filter(userStories, IdIsNot(id));
    }

    /** The status select of a story. */
    method UpdateStatus(id: int, status: string)
      modifies this
      ensures userStories == WithStatus(old(userStories), id, status)
      ensures |userStories| == |old(userStories)|
      ensures epic == old(epic) && persona == old(persona)
    {
      userStories := WithStatus(userStories, id, status);
    }
  }
}
