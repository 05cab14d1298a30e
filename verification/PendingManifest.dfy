/**
 * The pending manifest of NightShift: appends under a file lock, with the file replaced as a
 * whole.  The lock makes an append one step; a failure anywhere in it keeps the old file.
 */
module PendingManifest {
  import opened Wrappers

  datatype Demand = Demand(task: string, targetFile: string, commitSha: string, bestScore: real, workpath: string,
    timestamp: string)

  /** What the manifest file holds; unreadable text, or an item without a task, makes the append fail. */
  datatype Content = Missing | Blank | Queue(items: seq<Demand>) | Unreadable

  function Without(items: seq<Demand>, task: string): seq<Demand> {
    if items == [] then []
    else if items[0].task == task then Without(items[1..], task)
    else [items[0]] + Without(items[1..], task)
  }

  /** Lines 1600-1602: drop the prior candidate of the task, then add the new one at the end. */
  function Requeue(items: seq<Demand>, item: Demand): seq<Demand> {
    Without(items, item.task) + [item]
  }

  function RequeueAll(items: seq<Demand>, arrivals: seq<Demand>): seq<Demand>
    decreases |arrivals|
  {
    if arrivals == [] then items else RequeueAll(Requeue(items, arrivals[0]), arrivals[1..])
  }

  class Manifest {
    var content: Content

    /** Everything the file can be read as before an append. */
    function Items(): Option<seq<Demand>>
      reads this
    {
      match content
      case Queue(items) => Some(items)
      case Unreadable => None
      case _ => Some([])
    }

    /** `_append_to_pending_manifest`; `writes` is whether the new file could be written and moved in place. */
    method Append(item: Demand, writes: bool)
      modifies this
      ensures content == if writes && old(Items()).Some? then Queue(Requeue(old(Items()).value, item)) else old(content)
    {
      var pending: seq<Demand>;
      match content {
        case Unreadable => return;
        case Queue(items) => pending := items;
        case _ => pending := [];
      }
      pending := Without(pending, item.task) + [item];
      if writes {
        content := Queue(pending);
      }
    }
  }

  // ----- what any interleaving leaves -------------------------------------------------

  ghost predicate HasTask(items: seq<Demand>, task: string) {
    exists i :: 0 <= i < |items| && items[i].task == task
  }

  ghost predicate DistinctTasks(items: seq<Demand>) {
    forall i, j :: 0 <= i < j < |items| ==> items[i].task != items[j].task
  }

  /** Reference: of everything queued so far, the last item of each task, in arrival order. */
  ghost function LastOfEachTask(items: seq<Demand>): seq<Demand> {
    if items == [] then []
    else if HasTask(items[1..], items[0].task) then LastOfEachTask(items[1..])
    else [items[0]] + LastOfEachTask(items[1..])
  }

  lemma {:induction false} DistinctIsItsOwnLast(items: seq<Demand>)
    requires DistinctTasks(items)
    ensures LastOfEachTask(items) == items
  {
    if items != [] {
      DistinctIsItsOwnLast(items[1..]);
      assert items == [items[0]] + items[1..];
    }
  }

  /** A later item of the same task takes the place of the earlier one, and moves to the end. */
  lemma {:induction false} LastAfterArrival(items: seq<Demand>, item: Demand)
    ensures LastOfEachTask(items + [item]) == Without(LastOfEachTask(items), item.task) + [item]
  {
    var all := items + [item];
    if items == [] {
      assert all[1..] == [];
    } else {
      var rest := items[1..];
      LastAfterArrival(rest, item);
      assert all[1..] == rest + [item];
      assert HasTask(all[1..], items[0].task) <==> HasTask(rest, items[0].task) || item.task == items[0].task by {
        if HasTask(rest, items[0].task) {
          var i :| 0 <= i < |rest| && rest[i].task == items[0].task;
          assert all[1..][i].task == items[0].task;
        }
        assert all[1..][|rest|] == item;
      }
      if !HasTask(rest, items[0].task) {
        assert ([items[0]] + LastOfEachTask(rest))[1..] == LastOfEachTask(rest);
      }
    }
  }

  lemma {:induction false} RequeueAllKeepsLast(history: seq<Demand>, arrivals: seq<Demand>)
    ensures RequeueAll(LastOfEachTask(history), arrivals) == LastOfEachTask(history + arrivals)
    decreases |arrivals|
  {
    if arrivals == [] {
      assert history + arrivals == history;
    } else {
      LastAfterArrival(history, arrivals[0]);
      RequeueAllKeepsLast(history + [arrivals[0]], arrivals[1..]);
      assert history + [arrivals[0]] + arrivals[1..] == history + arrivals;
    }
  }

  /**
   * From distinct tasks, any interleaving of appends leaves the last item of each task and
   * nothing else, in the order of those last arrivals.
   */
  lemma ManifestHoldsLastOfEachTask(initial: seq<Demand>, arrivals: seq<Demand>)
    requires DistinctTasks(initial)
    ensures RequeueAll(initial, arrivals) == LastOfEachTask(initial + arrivals)
    ensures DistinctTasks(RequeueAll(initial, arrivals))
  {
    DistinctIsItsOwnLast(initial);
    RequeueAllKeepsLast(initial, arrivals);
    LastsAreDistinct(initial + arrivals);
  }

  lemma HasTaskFirst(first: Demand, rest: seq<Demand>, task: string)
    ensures HasTask([first] + rest, task) <==> first.task == task || HasTask(rest, task)
  {
    var all := [first] + rest;
    if first.task == task {
      assert all[0].task == task;
    } else if HasTask(rest, task) {
      var i :| 0 <= i < |rest| && rest[i].task == task;
      assert all[i + 1].task == task;
    }
  }

  lemma {:induction false} LastsAreDistinct(items: seq<Demand>)
    ensures DistinctTasks(LastOfEachTask(items))
    ensures forall task :: HasTask(LastOfEachTask(items), task) <==> HasTask(items, task)
  {
    if items != [] {
      var first, rest := items[0], items[1..];
      LastsAreDistinct(rest);
      assert items == [first] + rest;
      forall task ensures HasTask(LastOfEachTask(items), task) <==> HasTask(items, task) {
        HasTaskFirst(first, rest, task);
        HasTaskFirst(first, LastOfEachTask(rest), task);
      }
    }
  }
}
