/** What the modal does with a task after "Add Task" / "Save" has written it: report a failed
    write or page lookup, or decide, from the selected filters and the filter query's result,
    whether the task is emitted as is, emitted tagged with the filters it matches, or hidden. */
module FilterVisibility {
  import opened Base
  import opened Tasks

  /** One row of the filter query's result: a matching block and the filter it matched. */
  datatype FilterBlock = FilterBlock(uuid: string, filter: Filter)

  /** The definitions of the selected filters, in the order they are configured. */
  function SelectedFilters(all: seq<Filter>, selected: seq<FilterId>): (r: seq<Filter>)
    ensures |r| <= |all|
    ensures forall f :: f in r <==> f in all && f.id in selected
  {
    if |all| == 0 then []
    else (if all[0].id in selected then [all[0]] else []) + SelectedFilters(all[1..], selected)
  }

  /** Selection distributes over concatenation of the configured filters: their order is kept. */
  lemma {:induction false} SelectedFiltersAppend(a: seq<Filter>, b: seq<Filter>, selected: seq<FilterId>)
    ensures SelectedFilters(a + b, selected) == SelectedFilters(a, selected) + SelectedFilters(b, selected)
    decreases |a|
  {
    if |a| > 0 {
      assert (a + b)[0] == a[0];
      assert (a + b)[1..] == a[1..] + b;
      SelectedFiltersAppend(a[1..], b, selected);
    } else {
      assert a + b == b;
    }
  }

  /** One configured filter is kept exactly when its id is selected. */
  lemma SelectedFiltersSingle(f: Filter, selected: seq<FilterId>)
    ensures SelectedFilters([f], selected) == if f.id in selected then [f] else []
  {
  }

  /** The uuids of the query's rows, in order. */
  function Uuids(blocks: seq<FilterBlock>): (r: seq<string>)
    ensures |r| == |blocks|
    ensures forall k :: 0 <= k < |blocks| ==> r[k] == blocks[k].uuid
  {
    seq(|blocks|, k requires 0 <= k < |blocks| => blocks[k].uuid)
  }

  /** The filters of the rows whose uuid is `uuid`, in row order. */
  function MatchingFilters(blocks: seq<FilterBlock>, uuid: string): (r: seq<Filter>)
    ensures |r| <= |blocks|
    ensures forall f :: f in r <==> FilterBlock(uuid, f) in blocks
  {
    if |blocks| == 0 then []
    else (if blocks[0].uuid == uuid then [blocks[0].filter] else []) + MatchingFilters(blocks[1..], uuid)
  }

  /** Matching distributes over concatenation of query results: row order is kept. */
  lemma {:induction false} MatchingFiltersAppend(a: seq<FilterBlock>, b: seq<FilterBlock>, uuid: string)
    ensures MatchingFilters(a + b, uuid) == MatchingFilters(a, uuid) + MatchingFilters(b, uuid)
    decreases |a|
  {
    if |a| > 0 {
      assert (a + b)[0] == a[0];
      assert (a + b)[1..] == a[1..] + b;
      MatchingFiltersAppend(a[1..], b, uuid);
    } else {
      assert a + b == b;
    }
  }

  /** One row contributes its filter exactly when it lists the block. Together with
      `MatchingFiltersAppend` this fixes the whole list: one entry per listing row, in row order,
      duplicates kept. */
  lemma MatchingFiltersSingle(b: FilterBlock, uuid: string)
    ensures MatchingFilters([b], uuid) == if b.uuid == uuid then [b.filter] else []
  {
  }

  /** A block matches some filter exactly when its uuid is among the query's uuids. */
  lemma MatchedIffListed(blocks: seq<FilterBlock>, uuid: string)
    ensures |MatchingFilters(blocks, uuid)| > 0 <==> uuid in Uuids(blocks)
  {
  }

  /** The outcome for the caller: the task to show, or nothing because it is filtered out. */
  datatype Visibility = Emit(task: Task) | Hidden

  /** With no filter selected the task is emitted unchanged. With filters selected, a task whose
      block the query listed is emitted tagged with exactly the filters that listed it, in row
      order; any other task is hidden (the user is told it was saved but does not match). */
  function ResolveVisibility(task: Task, uuid: string, selected: seq<FilterId>, blocks: seq<FilterBlock>)
    : (r: Visibility)
    ensures |selected| == 0 ==> r == Emit(task)
    ensures |selected| > 0 ==> (r.Hidden? <==> forall k :: 0 <= k < |blocks| ==> blocks[k].uuid != uuid)
    ensures |selected| > 0 && r.Emit? ==>
              && r.task == task.(filters := r.task.filters)
              && |r.task.filters| > 0
              && (forall f :: f in r.task.filters <==> FilterBlock(uuid, f) in blocks)
    ensures |selected| > 0 && r.Emit? ==> r.task.filters == MatchingFilters(blocks, uuid)
  {
    MatchedIffListed(blocks, uuid);
    if |selected| > 0 then
      if uuid in Uuids(blocks) then Emit(task.(filters := MatchingFilters(blocks, uuid)))
      else Hidden
    else Emit(task)
  }

  /** The failures that end the save early; the modal stays open on either. */
  datatype SaveError = PersistFailed | PageLookupFailed

  datatype SaveOutcome = Failed(error: SaveError) | Resolved(visibility: Visibility)

  /** The decision `handleOk` takes once its external calls have answered: `block` is the written
      block (absent when the write failed), `pageFound` says whether its page was found, and
      `task` is the task rebuilt from the block. */
  function HandleOk(block: Option<RawBlock>, pageFound: bool, task: Task,
                    selected: seq<FilterId>, filterBlocks: seq<FilterBlock>): (r: SaveOutcome)
    ensures r == Failed(PersistFailed) <==> block.None?
    ensures r == Failed(PageLookupFailed) <==> block.Some? && !pageFound
    ensures r.Resolved? ==> block.Some? && pageFound
    ensures r.Resolved? && |selected| == 0 ==> r.visibility == Emit(task)
    ensures r.Resolved? && |selected| > 0 && r.visibility.Emit? ==>
              r.visibility.task.filters == MatchingFilters(filterBlocks, block.value.uuid)
    ensures r.Resolved? && |selected| > 0 ==>
              (r.visibility.Hidden? <==> block.value.uuid !in Uuids(filterBlocks))
    ensures r.Resolved? && r.visibility.Emit? ==> r.visibility.task == task.(filters := r.visibility.task.filters)
  {
    if block.None? then Failed(PersistFailed)
    else if !pageFound then Failed(PageLookupFailed)
    else Resolved(ResolveVisibility(task, block.value.uuid, selected, filterBlocks))
  }

  /** Two selected filters of which only the first lists the block: the task is tagged with the
      first alone. One selected filter that lists a different block: the task is hidden. */
  lemma ResolveExamples(task: Task, f1: Filter, f2: Filter)
    requires f1 != f2
    ensures ResolveVisibility(task, "b", [f1.id, f2.id], [FilterBlock("b", f1), FilterBlock("c", f2)])
            == Emit(task.(filters := [f1]))
    ensures ResolveVisibility(task, "b", [f2.id], [FilterBlock("c", f2)]) == Hidden
  {
    var blocks := [FilterBlock("b", f1), FilterBlock("c", f2)];
    assert Uuids(blocks)[0] == "b";
    assert MatchingFilters(blocks[1..], "b") == [];
    assert MatchingFilters(blocks, "b") == [f1];
  }
}
