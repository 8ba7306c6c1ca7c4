/**
 * The roadmap page: milestones, each with a quarter, title, status, progress
 * percentage and a list of items; a form that creates a milestone or edits one
 * in place; deletion after a confirmation; and the overview figures (total
 * items, milestones in progress, average progress).
 */
module Roadmap {
  import opened Wrappers
  import opened Seqs
  import Text
  import opened Arith

  datatype Item = Item(name: string, status: string)

  datatype Milestone = Milestone(
    id: int,
    quarter: string,
    title: string,
    status: string,
    progress: int,
    items: seq<Item>)

  /** `newMilestone`: the add/edit form. */
  datatype MilestoneForm = MilestoneForm(quarter: string, title: string, status: string, progress: int, items: seq<Item>)

  /** The empty form `resetForm` restores. */
  const EmptyForm := MilestoneForm("", "", "Planned", 0, [])

  /** The single item a milestone saved without items receives. */
  const PlaceholderItem := Item("Feature 1", "Planned")

  /** The two sample milestones the page starts with. */
  const InitialMilestones := [
    Milestone(1, "Q1 2026", "Platform Foundation", "In Progress", 65,
      [Item("User Authentication System", "Completed"), Item("Core Dashboard", "In Progress"),
       Item("Analytics Integration", "Planned")]),
    Milestone(2, "Q2 2026", "AI Features Launch", "Planned", 0,
      [Item("AI-Powered Search", "Planned"), Item("Smart Recommendations", "Planned"),
       Item("Automated Insights", "Planned")])
  ]

  // ---------------------------------------------------------------- saving

  /** The form can be saved: both quarter and title are filled in. */
  predicate CanSave(form: MilestoneForm) {
    form.quarter != "" && form.title != ""
  }

  /**
   * `if (editingId)`: edit mode needs an id that JavaScript counts as true,
   * so `null` and `0` both mean "add".
   */
  predicate IsEditing(editingId: Option<int>) {
    editingId.Some? && editingId.value != 0
  }

  /**
   * The milestone the form saves as, with id `id`: the form's fields, and the
   * placeholder item when the form has none.
   */
  function FromForm(form: MilestoneForm, id: int): (m: Milestone)
    ensures m.id == id && m.quarter == form.quarter && m.title == form.title
    ensures m.status == form.status && m.progress == form.progress
    ensures form.items != [] ==> m.items == form.items
    ensures form.items == [] ==> m.items == [PlaceholderItem]
    ensures m.items != []
  {
    Milestone(id, form.quarter, form.title, form.status, form.progress,
              if |form.items| > 0 then form.items else [PlaceholderItem])
  }

  /** `milestones.map(m => m.id === editingId ? {...milestone, id: editingId} : m)`. */
  function ReplaceById(ms: seq<Milestone>, form: MilestoneForm, id: int): seq<Milestone> {
    seq(|ms|, k requires 0 <= k < |ms| => if ms[k].id == id then FromForm(form, id) else ms[k])
  }

  /**
   * `handleAddMilestone` with `now` the clock reading: the milestones after
   * saving the form. Nothing changes when quarter or title is empty.
   */
  function Saved(ms: seq<Milestone>, form: MilestoneForm, editingId: Option<int>, now: int): seq<Milestone> {
    if !CanSave(form) then ms
    else if IsEditing(editingId) then ReplaceById(ms, form, editingId.value)
    else ms + [FromForm(form, now)]
  }

  /** Saving an incomplete form changes nothing. */
  lemma SavedIncompleteIsNoOp(ms: seq<Milestone>, form: MilestoneForm, editingId: Option<int>, now: int)
    requires form.quarter == "" || form.title == ""
    ensures Saved(ms, form, editingId, now) == ms
  {
  }

  /**
   * In edit mode the milestones with the edited id are replaced where they
   * stand, keeping that id; the list keeps its length and every other
   * milestone is untouched.
   */
  lemma SavedEditReplacesInPlace(ms: seq<Milestone>, form: MilestoneForm, editingId: Option<int>, now: int)
    requires CanSave(form) && IsEditing(editingId)
    ensures var r, id := Saved(ms, form, editingId, now), editingId.value;
      && |r| == |ms|
      && (forall k :: 0 <= k < |ms| && ms[k].id != id ==> r[k] == ms[k])
      && (forall k :: 0 <= k < |ms| && ms[k].id == id ==> r[k] == FromForm(form, id))
  {
  }

  /** In add mode the new milestone, with the fresh id, goes at the end. */
  lemma SavedAddAppends(ms: seq<Milestone>, form: MilestoneForm, editingId: Option<int>, now: int)
    requires CanSave(form) && !IsEditing(editingId)
    ensures var r := Saved(ms, form, editingId, now);
      && |r| == |ms| + 1
      && r[..|ms|] == ms
      && r[|ms|] == FromForm(form, now)
  {
  }

  // ---------------------------------------------------------------- deleting

  /** The test "does not carry `id`". */
  function IdIsNot(id: int): Milestone -> bool {
    (m: Milestone) => m.id != id
  }

  /** `handleDeleteMilestone(id)`, where `confirmed` is the answer to the dialog. */
  function Deleted(ms: seq<Milestone>, id: int, confirmed: bool): seq<Milestone> {
    if confirmed then Filter(ms, IdIsNot(id)) else ms
  }

  /**
   * A confirmed delete removes exactly the milestones with `id`, keeping the
   * rest in their order; a declined one changes nothing.
   */
  lemma DeletedSpec(ms: seq<Milestone>, id: int, confirmed: bool)
    ensures var r := Deleted(ms, id, confirmed);
      && (!confirmed ==> r == ms)
      && (confirmed ==> forall m :: m in r <==> m in ms && m.id != id)
      && (confirmed ==> exists idx: seq<int> :: |idx| == |r| && IncreasingBelow(idx, |ms|) &&
                          forall k :: 0 <= k < |r| ==> r[k] == ms[idx[k]])
  {
    if confirmed {
      FilterMembers(ms, IdIsNot(id));
      FilterIsOrderedSelection(ms, IdIsNot(id));
      var idx := KeptIndices(ms, IdIsNot(id));
      assert |idx| == |Deleted(ms, id, confirmed)|;
    }
  }

  // ---------------------------------------------------------------- the item list of the form

  /**
   * `addItemToMilestone`: a name that trims to nothing is ignored; otherwise
   * the untrimmed name is appended as a planned item.
   */
  function WithItem(items: seq<Item>, name: string): (r: seq<Item>)
    ensures Text.AllWhitespace(name) ==> r == items
    ensures !Text.AllWhitespace(name) ==> r == items + [Item(name, "Planned")]
  {
    if Text.Trim(name) == "" then items else items + [Item(name, "Planned")]
  }

  /** `items.filter((_, i) => i !== index)`, walking from position `from`. */
  function DropIndexFrom(items: seq<Item>, index: int, from: int): seq<Item>
    decreases |items|
  {
    if items == [] then []
    else (if from == index then [] else [items[0]]) + DropIndexFrom(items[1..], index, from + 1)
  }

  /** `removeItemFromMilestone(index)`. */
  function WithoutItemAt(items: seq<Item>, index: int): seq<Item> {
    DropIndexFrom(items, index, 0)
  }

  /** The walk drops the item at `index` when that lies ahead of it, and nothing else. */
  lemma {:induction false} DropIndexFromSpec(items: seq<Item>, index: int, from: int)
    ensures from <= index < from + |items| ==>
      DropIndexFrom(items, index, from) == items[..index - from] + items[index - from + 1..]
    ensures !(from <= index < from + |items|) ==> DropIndexFrom(items, index, from) == items
    decreases |items|
  {
    if items != [] {
      DropIndexFromSpec(items[1..], index, from + 1);
      if from == index {
        assert items[..0] + items[1..] == items[1..];
      } else {
        assert items == [items[0]] + items[1..];
        if from < index < from + |items| {
          assert items[..index - from] == [items[0]] + items[1..][..index - from - 1];
          assert items[index - from + 1..] == items[1..][index - from..];
        }
      }
    }
  }

  /**
   * Removing item `k` removes exactly that item, keeping the others in order;
   * an index outside the list changes nothing.
   */
  lemma WithoutItemAtSpec(items: seq<Item>, k: int)
    ensures 0 <= k < |items| ==> WithoutItemAt(items, k) == items[..k] + items[k + 1..]
    ensures 0 <= k < |items| ==> |WithoutItemAt(items, k)| == |items| - 1
    ensures !(0 <= k < |items|) ==> WithoutItemAt(items, k) == items
  {
    DropIndexFromSpec(items, k, 0);
  }

  // ---------------------------------------------------------------- colours

  /** `getStatusColor`: the marker colour of a milestone status. */
  function StatusColor(status: string): (c: string)
    ensures status == "Completed" ==> c == "#10b981"
    ensures status == "In Progress" ==> c == "#f59e0b"
    ensures status == "Planned" ==> c == "#6366f1"
    ensures c == "#6c757d" <==> status !in {"Completed", "In Progress", "Planned"}
  {
    match status
    case "Completed" => "#10b981"
    case "In Progress" => "#f59e0b"
    case "Planned" => "#6366f1"
    case _ => "#6c757d"
  }

  /** `getItemStatusColor`: the badge class of an item status. */
  function ItemStatusColor(status: string): (c: string)
    ensures status == "Completed" ==> c == "success"
    ensures status == "In Progress" ==> c == "warning"
    ensures status == "Planned" ==> c == "primary"
    ensures c == "secondary" <==> status !in {"Completed", "In Progress", "Planned"}
  {
    match status
    case "Completed" => "success"
    case "In Progress" => "warning"
    case "Planned" => "primary"
    case _ => "secondary"
  }

  // ---------------------------------------------------------------- overview figures

  /** "Total Features": `milestones.reduce((sum, m) => sum + m.items.length, 0)`. */
  function TotalItems(ms: seq<Milestone>): nat {
    if ms == [] then 0 else TotalItems(ms[..|ms| - 1]) + |ms[|ms| - 1].items|
  }

  /** The test "is in progress". */
  function IsInProgress(m: Milestone): bool {
    m.status == "In Progress"
  }

  /** "In Progress": `milestones.filter(m => m.status === 'In Progress').length`. */
  function InProgressCount(ms: seq<Milestone>): nat {
    |Filter(ms, IsInProgress)|
  }

  /** Saving an edit whose status is not "In Progress" never raises the in-progress count. */
  lemma InProgressAfterEdit(ms: seq<Milestone>, form: MilestoneForm, editingId: Option<int>, now: int)
    requires CanSave(form) && IsEditing(editingId) && form.status != "In Progress"
    ensures InProgressCount(Saved(ms, form, editingId, now)) <= InProgressCount(ms)
  {
    var r := Saved(ms, form, editingId, now);
    FilterCountMonotone(r, ms, IsInProgress, IsInProgress);
  }

  /** The sum of the progress values, as the reduce adds them up. */
  function ProgressSum(ms: seq<Milestone>): int {
    if ms == [] then 0 else ProgressSum(ms[..|ms| - 1]) + ms[|ms| - 1].progress
  }

  /** "Avg Progress": the rounded mean of the progress values, 0 with no milestones. */
  function AverageProgress(ms: seq<Milestone>): int {
    if |ms| > 0 then RoundHalfUp(ProgressSum(ms), |ms|) else 0
  }

  /** The total adds up over consecutive parts of the list. */
  lemma {:induction false} TotalItemsAppend(xs: seq<Milestone>, ys: seq<Milestone>)
    ensures TotalItems(xs + ys) == TotalItems(xs) + TotalItems(ys)
    decreases |ys|
  {
    if ys != [] {
      var zs := xs + ys;
      assert zs[..|zs| - 1] == xs + ys[..|ys| - 1];
      assert zs[|zs| - 1] == ys[|ys| - 1];
      TotalItemsAppend(xs, ys[..|ys| - 1]);
    } else {
      assert xs + ys == xs;
    }
  }

  /** Every saved milestone has an item, so after a save the total is at least one per milestone. */
  lemma SavedTotalItems(ms: seq<Milestone>, form: MilestoneForm, now: int)
    requires CanSave(form)
    ensures TotalItems(Saved(ms, form, None, now)) == TotalItems(ms) + |FromForm(form, now).items|
  {
    TotalItemsAppend(ms, [FromForm(form, now)]);
    assert TotalItems([FromForm(form, now)]) == |FromForm(form, now).items| by {
      assert [FromForm(form, now)][..0] == [];
    }
  }

  /** The progress sum of values within bounds stays within the bounds times the count. */
  lemma {:induction false} ProgressSumBounds(ms: seq<Milestone>, lo: int, hi: int)
    requires forall k :: 0 <= k < |ms| ==> lo <= ms[k].progress <= hi
    ensures lo * |ms| <= ProgressSum(ms) <= hi * |ms|
  {
    if ms != [] {
      ProgressSumBounds(ms[..|ms| - 1], lo, hi);
    }
  }

  /**
   * When every progress value is a percentage, so is the average (an empty
   * roadmap shows 0).
   */
  lemma AverageProgressIsPercentage(ms: seq<Milestone>)
    requires forall k :: 0 <= k < |ms| ==> 0 <= ms[k].progress <= 100
    ensures 0 <= AverageProgress(ms) <= 100
  {
    if |ms| > 0 {
      var n, s, r := |ms|, ProgressSum(ms), AverageProgress(ms);
      ProgressSumBounds(ms, 0, 100);
      MulMonotone(r, -1, n);
      MulMonotone(101, r, n);
    }
  }

  /** When every milestone has the same progress, that is the average. */
  lemma AverageOfEqualProgress(ms: seq<Milestone>, p: int)
    requires ms != []
    requires forall k :: 0 <= k < |ms| ==> ms[k].progress == p
    ensures AverageProgress(ms) == p
  {
    var n := |ms|;
    ProgressSumBounds(ms, p, p);
    var r := AverageProgress(ms);
    MulMonotone(r, p - 1, n);
    MulMonotone(p + 1, r, n);
  }

  // ---------------------------------------------------------------- page state

  /** No two milestones share an id. */
  ghost predicate UniqueIds(ms: seq<Milestone>) {
    forall i, j :: 0 <= i < j < |ms| ==> ms[i].id != ms[j].id
  }

  /** The page's `milestones`, `newMilestone`, `editingId` and `newItemName` state. */
  class RoadmapEditor {
    var milestones: seq<Milestone>
    var form: MilestoneForm
    var editingId: Option<int>
    var newItemName: string

    ghost predicate Valid()
      reads this
    {
      UniqueIds(milestones)
    }

    constructor ()
      ensures Valid()
      ensures milestones == InitialMilestones && form == EmptyForm
      ensures editingId == None && newItemName == ""
    {
      milestones := InitialMilestones;
      form := EmptyForm;
      editingId := None;
      newItemName := "";
    }

    /** Typing in the quarter, title, status or progress fields. */
    method SetFields(quarter: string, title: string, status: string, progress: int)
      modifies this
      ensures form == old(form).(quarter := quarter, title := title, status := status, progress := progress)
      ensures milestones == old(milestones) && editingId == old(editingId) && newItemName == old(newItemName)
    {
      form := form.(quarter := quarter, title := title, status := status, progress := progress);
    }

    /** Typing in the item box. */
    method SetNewItemName(name: string)
      modifies this
      ensures newItemName == name
      ensures milestones == old(milestones) && form == old(form) && editingId == old(editingId)
    {
      newItemName := name;
    }

    /** `resetForm`: the empty form, no item name, not editing. */
    method ResetForm()
      modifies this
      ensures form == EmptyForm && newItemName == "" && editingId == None
      ensures milestones == old(milestones)
    {
      form := EmptyForm;
      newItemName := "";
      editingId := None;
    }

    /**
     * `handleAddMilestone` with `now` the clock reading `Date.now()`, fresh
     * among the milestones' ids. An incomplete form changes nothing; otherwise
     * the milestone is saved and the form reset.
     */
    method SaveMilestone(now: int)
      requires Valid()
      requires forall k :: 0 <= k < |milestones| ==> milestones[k].id != now
      modifies this
      ensures Valid()
      ensures milestones == Saved(old(milestones), old(form), old(editingId), now)
      ensures !CanSave(old(form)) ==>
        form == old(form) && editingId == old(editingId) && newItemName == old(newItemName)
      ensures CanSave(old(form)) ==> form == EmptyForm && editingId == None && newItemName == ""
    {
      if form.quarter == "" || form.title == "" {
        return;
      }
      var milestone := FromForm(form, now);
      if editingId.Some? && editingId.value != 0 {
        var id := editingId.value;
        milestones := ReplaceById(milestones, form, id);
        editingId := None;
      } else {
        milestones := milestones + [milestone];
      }
      ResetForm();
    }

    /** `handleEditMilestone`: load a milestone into the form and remember its id. */
    method BeginEdit(m: Milestone)
      modifies this
      ensures form == MilestoneForm(m.quarter, m.title, m.status, m.progress, m.items)
      ensures editingId == Some(m.id)
      ensures milestones == old(milestones) && newItemName == old(newItemName)
    {
      form := MilestoneForm(m.quarter, m.title, m.status, m.progress, m.items);
      editingId := Some(m.id);
    }

    /** `handleDeleteMilestone(id)`, with `confirmed` the answer to the dialog. */
    method DeleteMilestone(id: int, confirmed: bool)
      requires Valid()
      modifies this
      ensures Valid()
      ensures milestones == Deleted(old(milestones), id, confirmed)
      ensures form == old(form) && editingId == old(editingId) && newItemName == old(newItemName)
    {
      if confirmed {
        ghost var before := milestones;
        milestones := Filter(milestones, IdIsNot(id));
        FilterIsOrderedSelection(before, IdIsNot(id));
        var idx := KeptIndices(before, IdIsNot(id));
        forall i, j | 0 <= i < j < |milestones| ensures milestones[i].id != milestones[j].id {
          assert milestones[i] == before[idx[i]] && milestones[j] == before[idx[j]];
        }
      }
    }

    /** `addItemToMilestone`. */
    method AddItem()
      modifies this
      ensures form == old(form).(items := WithItem(old(form).items, old(newItemName)))
      ensures newItemName == if Text.AllWhitespace(old(newItemName)) then old(newItemName) else ""
      ensures milestones == old(milestones) && editingId == old(editingId)
    {
      if Text.Trim(newItemName) == "" {
        return;
      }
      form := form.(items := form.items + [Item(newItemName, "Planned")]);
      newItemName := "";
    }

    /** `removeItemFromMilestone(index)`. */
    method RemoveItem(index: int)
      modifies this
      ensures form == old(form).(items := WithoutItemAt(old(form).items, index))
      ensures milestones == old(milestones) && editingId == old(editingId) && newItemName == old(newItemName)
    {
      form := form.(items := WithoutItemAt(form.items, index));
    }
  }
}
