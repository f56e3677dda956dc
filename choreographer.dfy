/**
 * The scroll-step choreographer of `scrollVis`: a dense table of seventeen
 * enter functions and a parallel table of update functions, and `activate`,
 * which runs the enter function of every step between the last activated
 * step and the new one, in the direction of travel. Each call is recorded in
 * a trace by the function's name. What the enter functions do is modelled
 * where it changes chart state (reOrderBar and showReverseBar, in the
 * module Charts); their drawing is not.
 */
module Choreographer {
  import opened D3Array

  /** The enter functions registered by setupSections, by name. */
  datatype EnterFn =
    | ShowTitle | ShowTreeMap | ZoomTreeMap | ShowCPILine | Show12MonthCPILine
    | ShowMultiLines | HighLightHouseLines | HighLightFoodTransLines | ShowScatter
    | HighLightScatter | AfterSupportScatter | ShowSafeBalls | ShowLollipop
    | ShowBar | ShowReverseBar | ReOrderBar | ClosingTitle

  /** The update functions: the empty function, or updateSafeBalls. */
  datatype UpdateFn = NoOp | UpdateSafeBalls

  /** The step whose update function is updateSafeBalls. */
  const SafeBallsStep := 11

  /** activateFunctions as setupSections fills it, step by step. */
  function EnterTable(): seq<EnterFn>
  {
    [ShowTitle, ShowTreeMap, ZoomTreeMap, ShowCPILine, Show12MonthCPILine,
     ShowMultiLines, HighLightHouseLines, HighLightFoodTransLines, ShowScatter,
     HighLightScatter, AfterSupportScatter, ShowSafeBalls, ShowLollipop,
     ShowBar, ShowReverseBar, ReOrderBar, ClosingTitle]
  }

  /** Seventeen steps, and no enter function is registered for two steps, so
      the trace of enter calls tells exactly which steps were entered. */
  lemma EnterTableDense()
    ensures |EnterTable()| == 17
    ensures forall i, j :: 0 <= i < j < |EnterTable()| ==> EnterTable()[i] != EnterTable()[j]
  {
  }

  /** The steps activate(index) walks through when `last` was activated
      before: d3.range(last + sign, index + sign, sign). The walk is empty
      exactly when the index does not change; otherwise it moves one step
      at a time away from `last` (the i-th step is i + 1 away from it),
      never revisits `last`, and ends at `index`. */
  function ScrolledSections(last: int, index: int): (r: seq<int>)
    ensures r == [] <==> index == last
    ensures r != [] ==> r[|r| - 1] == index
    ensures forall i :: 0 <= i < |r| ==> if last < index then last < r[i] <= index else index <= r[i] < last
    ensures |r| == if last <= index then index - last else last - index
    ensures forall i :: 0 <= i < |r| ==> r[i] == if last <= index then last + 1 + i else last - 1 - i
  {
    var sign := if index - last < 0 then -1 else 1;
    Range(last + sign, index + sign, sign)
  }

  /** The enter functions that a walk along `path` calls, in order. */
  function Calls(table: seq<EnterFn>, path: seq<int>): seq<EnterFn>
    requires forall i :: 0 <= i < |path| ==> 0 <= path[i] < |table|
  {
    seq(|path|, k requires 0 <= k < |path| => table[path[k]])
  }

  /** Walking one more step appends that step's enter function. */
  lemma CallsExtend(table: seq<EnterFn>, path: seq<int>, k: nat)
    requires k < |path|
    requires forall i :: 0 <= i < |path| ==> 0 <= path[i] < |table|
    ensures Calls(table, path[..k + 1]) == Calls(table, path[..k]) + [table[path[k]]]
  {
  }

  /** When every step index in play is registered, the walk only visits
      registered steps. */
  lemma ScrolledSectionsRegistered(last: int, index: int, n: nat)
    requires -1 <= last < n
    requires index == last || 0 <= index < n
    ensures forall i :: 0 <= i < |ScrolledSections(last, index)| ==> 0 <= ScrolledSections(last, index)[i] < n
  {
  }

  /** Scrolling forward from step j to step k runs the enter functions of
      steps j+1, ..., k, each once, in increasing order; from the initial
      state (j = -1) that is every step 0, ..., k. */
  lemma ForwardCatchUp(table: seq<EnterFn>, j: int, k: int)
    requires -1 <= j < k < |table|
    ensures forall i :: 0 <= i < |ScrolledSections(j, k)| ==> 0 <= ScrolledSections(j, k)[i] < |table|
    ensures Calls(table, ScrolledSections(j, k)) == table[j + 1..k + 1]
  {
  }

  /** The reverse of a sequence. */
  function Reversed<T>(s: seq<T>): seq<T>
  {
    seq(|s|, i requires 0 <= i < |s| => s[|s| - 1 - i])
  }

  /** Scrolling back from step k to step j runs the enter functions of steps
      k-1, ..., j, each once, in decreasing order; step k, being left, is not
      entered again. */
  lemma BackwardCatchUp(table: seq<EnterFn>, j: int, k: int)
    requires 0 <= j < k < |table|
    ensures forall i :: 0 <= i < |ScrolledSections(k, j)| ==> 0 <= ScrolledSections(k, j)[i] < |table|
    ensures k !in ScrolledSections(k, j)
    ensures Calls(table, ScrolledSections(k, j)) == Reversed(table[j..k])
  {
  }

  /** Activating the step that is already the last one calls nothing. */
  lemma SameStepNoCalls(j: int)
    ensures ScrolledSections(j, j) == []
  {
  }

  /** The JavaScript table has no function at an index outside [0, n): the
      walk reaches such an index (a TypeError when it is called) exactly when
      the new index is out of range and differs from the last one. */
  lemma {:induction false} UnregisteredStepReached(last: int, index: int, n: nat)
    requires -1 <= last < n
    ensures (exists i :: i in ScrolledSections(last, index) && !(0 <= i < n))
            <==> index != last && !(0 <= index < n)
  {
    var path := ScrolledSections(last, index);
    if index != last && !(0 <= index < n) {
      assert path[|path| - 1] == index && path[|path| - 1] in path;
    } else if index != last {
      ScrolledSectionsRegistered(last, index, n);
    } else {
      assert path == [];
    }
  }

  /** The closure state of scrollVis that drives the steps. */
  class ScrollVis {
    var lastIndex: int
    var activeIndex: int
    var activateFunctions: seq<EnterFn>
    var updateFunctions: seq<UpdateFn>
    /** Every enter function called so far, in order. */
    ghost var enterTrace: seq<EnterFn>
    /** Every progress value handed to updateSafeBalls so far, in order. */
    ghost var updateTrace: seq<real>

    /** Either setupSections has not run yet and both tables are empty, or
        they hold the seventeen steps; lastIndex is -1 or a registered step. */
    ghost predicate Valid()
      reads this
    {
      && -1 <= lastIndex < |activateFunctions|
      && |updateFunctions| == |activateFunctions|
      && (activateFunctions == [] || activateFunctions == EnterTable())
      && forall i :: 0 <= i < |updateFunctions| ==>
           updateFunctions[i] == if i == SafeBallsStep then UpdateSafeBalls else NoOp
    }

    /** scrollVis(): nothing activated yet, no tables yet. */
    constructor ()
      ensures Valid()
      ensures lastIndex == -1 && activeIndex == 0
      ensures activateFunctions == [] && updateFunctions == []
      ensures enterTrace == [] && updateTrace == []
    {
      lastIndex := -1;
      activeIndex := 0;
      activateFunctions := [];
      updateFunctions := [];
      enterTrace := [];
      updateTrace := [];
    }

    /** setupSections: registers the seventeen enter functions, then fills
        the update table with no-ops, one per enter function, and puts
        updateSafeBalls at step 11. */
    method SetupSections()
      requires Valid()
      modifies this
      ensures Valid()
      ensures activateFunctions == EnterTable()
      ensures |updateFunctions| == |activateFunctions|
      ensures forall i :: 0 <= i < |updateFunctions| ==> (updateFunctions[i] == NoOp <==> i != SafeBallsStep)
      ensures lastIndex == old(lastIndex) && activeIndex == old(activeIndex)
      ensures enterTrace == old(enterTrace) && updateTrace == old(updateTrace)
    {
      activateFunctions := EnterTable();
      var i := 0;
      while i < |activateFunctions|
        invariant activateFunctions == EnterTable()
        invariant 0 <= i <= |activateFunctions|
        invariant |updateFunctions| == if i < |old(updateFunctions)| then |old(updateFunctions)| else i
        invariant forall j :: 0 <= j < i ==> updateFunctions[j] == NoOp
        invariant forall j :: i <= j < |updateFunctions| ==> updateFunctions[j] == old(updateFunctions)[j]
        invariant lastIndex == old(lastIndex) && activeIndex == old(activeIndex)
        invariant enterTrace == old(enterTrace) && updateTrace == old(updateTrace)
      {
        // a JavaScript array grows when written one past its end
        updateFunctions := if i < |updateFunctions| then updateFunctions[i := NoOp] else updateFunctions + [NoOp];
        i := i + 1;
      }
      updateFunctions := updateFunctions[SafeBallsStep := UpdateSafeBalls];
    }

    /** The forEach of chart.activate: calls the enter function of every
        step of `path`, in order. */
    method EnterAlong(path: seq<int>)
      requires Valid()
      requires forall i :: 0 <= i < |path| ==> 0 <= path[i] < |activateFunctions|
      modifies this
      ensures Valid()
      ensures lastIndex == old(lastIndex) && activeIndex == old(activeIndex)
      ensures activateFunctions == old(activateFunctions) && updateFunctions == old(updateFunctions)
      ensures enterTrace == old(enterTrace) + Calls(activateFunctions, path)
      ensures updateTrace == old(updateTrace)
    {
      var k := 0;
      while k < |path|
        invariant 0 <= k <= |path|
        invariant activateFunctions == old(activateFunctions) && updateFunctions == old(updateFunctions)
        invariant enterTrace == old(enterTrace) + Calls(activateFunctions, path[..k])
        invariant lastIndex == old(lastIndex) && activeIndex == old(activeIndex)
        invariant updateTrace == old(updateTrace)
      {
        CallsExtend(activateFunctions, path, k);
        enterTrace := enterTrace + [activateFunctions[path[k]]];
        k := k + 1;
      }
      assert path[..k] == path;
    }

    /** chart.activate(index): runs the enter functions along the scrolled
        path, then records index as the last step. An index that is neither
        registered nor equal to lastIndex would make the walk call a missing
        function (see UnregisteredStepReached), so callers must not pass one. */
    method Activate(index: int)
      requires Valid()
      requires index == lastIndex || 0 <= index < |activateFunctions|
      modifies this
      ensures Valid()
      ensures activeIndex == index && lastIndex == index
      ensures activateFunctions == old(activateFunctions) && updateFunctions == old(updateFunctions)
      ensures forall i :: 0 <= i < |ScrolledSections(old(lastIndex), index)| ==>
        0 <= ScrolledSections(old(lastIndex), index)[i] < |activateFunctions|
      ensures enterTrace == old(enterTrace) + Calls(activateFunctions, ScrolledSections(old(lastIndex), index))
      ensures updateTrace == old(updateTrace)
    {
      activeIndex := index;
      var scrolledSections := ScrolledSections(lastIndex, activeIndex);
      ScrolledSectionsRegistered(lastIndex, index, |activateFunctions|);
      EnterAlong(scrolledSections);
      lastIndex := activeIndex;
    }

    /** chart.update(index, progress): calls the update function of the
        step; only updateSafeBalls (step 11) does anything. */
    method Update(index: int, progress: real)
      requires Valid()
      requires 0 <= index < |updateFunctions|
      modifies this
      ensures Valid()
      ensures lastIndex == old(lastIndex) && activeIndex == old(activeIndex)
      ensures activateFunctions == old(activateFunctions) && updateFunctions == old(updateFunctions)
      ensures enterTrace == old(enterTrace)
      ensures updateTrace == if index == SafeBallsStep then old(updateTrace) + [progress] else old(updateTrace)
      ensures index != SafeBallsStep ==> unchanged(this)
    {
      match updateFunctions[index]
      case NoOp =>
      case UpdateSafeBalls => updateTrace := updateTrace + [progress];
    }
  }
}
