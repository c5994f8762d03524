/** Message-list virtualization: the sorted messages are cut into runs by the same
    sender with small gaps, every run is one row of fixed height, and only the rows near
    the viewport are rendered. The container's scroll metrics are inputs (`None` while
    the container is not mounted). */
module Virtualized {
  import opened Common
  import opened ChatTypes
  import opened ChatUtils

  /** A message continues the current run: same sender, and fewer than `threshold` ms
      after the previous message. */
  predicate Joins(prev: Message, cur: Message, threshold: int) {
    cur.senderId == prev.senderId && cur.createdAt - prev.createdAt < threshold
  }

  /** The rows laid end to end. */
  function Flatten(groups: seq<seq<Message>>): seq<Message> {
    if groups == [] then [] else Flatten(groups[..|groups| - 1]) + groups[|groups| - 1]
  }

  lemma FlattenSnoc(groups: seq<seq<Message>>, g: seq<Message>)
    ensures Flatten(groups + [g]) == Flatten(groups) + g
  {
    assert (groups + [g])[..|groups|] == groups;
  }

  /** Every run is non-empty, consecutive messages inside a run join, and the first
      message of each run does not join the last one of the run before it. */
  predicate WellGrouped(groups: seq<seq<Message>>, threshold: int) {
    && (forall k :: 0 <= k < |groups| ==> groups[k] != [])
    && (forall k, j :: 0 <= k < |groups| && 0 < j < |groups[k]| ==>
          Joins(groups[k][j - 1], groups[k][j], threshold))
    && (forall k :: 0 < k < |groups| && groups[k - 1] != [] && groups[k] != [] ==>
          !Joins(groups[k - 1][|groups[k - 1]| - 1], groups[k][0], threshold))
  }

  /** `groupedMessages`: a copy of the list sorted by `createdAt`, cut into runs. */
  method GroupMessages(messages: seq<Message>, groupThreshold: int) returns (groups: seq<seq<Message>>)
    ensures messages == [] <==> groups == []
    ensures Flatten(groups) == SortMessagesByDate(messages)
    ensures WellGrouped(groups, groupThreshold)
  {
    if |messages| == 0 {
      return [];
    }
    var sortedMessages := SortMessagesByDate(messages);
    SortPermutes(messages);
    assert |sortedMessages| == |messages| by {
      assert |multiset(sortedMessages)| == |multiset(messages)|;
    }
    groups := CutIntoRuns(sortedMessages, groupThreshold);
  }

  /** The `for` loop of `groupedMessages` over the sorted copy. */
  method CutIntoRuns(sortedMessages: seq<Message>, groupThreshold: int) returns (groups: seq<seq<Message>>)
    requires sortedMessages != []
    ensures groups != []
    ensures Flatten(groups) == sortedMessages
    ensures WellGrouped(groups, groupThreshold)
  {
    groups := [];
    var currentGroup := [sortedMessages[0]];
    assert Flatten(groups) + currentGroup == sortedMessages[..1];
    assert WellGrouped(groups + [currentGroup], groupThreshold);
    var i := 1;
    while i < |sortedMessages|
      invariant 1 <= i <= |sortedMessages|
      invariant RunsInvariant(sortedMessages, i, groups, currentGroup, groupThreshold)
    {
      var currentMessage := sortedMessages[i];
      var prevMessage := sortedMessages[i - 1];
      if Joins(prevMessage, currentMessage, groupThreshold) {
        JoinStep(sortedMessages, i, groups, currentGroup, groupThreshold);
        currentGroup := currentGroup + [currentMessage];
      } else {
        SplitStep(sortedMessages, i, groups, currentGroup, groupThreshold);
        groups := groups + [currentGroup];
        currentGroup := [currentMessage];
      }
      i := i + 1;
    }
    FinishRuns(sortedMessages, groups, currentGroup, groupThreshold);
    groups := groups + [currentGroup];
  }

  /** The loop invariant of `CutIntoRuns` after `i` messages: the closed runs followed by
      the open one lay out the first `i` sorted messages and are well grouped. */
  ghost predicate RunsInvariant(sorted: seq<Message>, i: int, groups: seq<seq<Message>>,
                                cur: seq<Message>, threshold: int)
  {
    && 1 <= i <= |sorted|
    && cur != [] && cur[|cur| - 1] == sorted[i - 1]
    && Flatten(groups) + cur == sorted[..i]
    && WellGrouped(groups + [cur], threshold)
  }

  lemma FinishRuns(sorted: seq<Message>, groups: seq<seq<Message>>, cur: seq<Message>, threshold: int)
    requires RunsInvariant(sorted, |sorted|, groups, cur, threshold)
    ensures Flatten(groups + [cur]) == sorted && WellGrouped(groups + [cur], threshold)
  {
    FlattenSnoc(groups, cur);
    assert sorted[..|sorted|] == sorted;
  }

  lemma JoinStep(sorted: seq<Message>, i: int, groups: seq<seq<Message>>, cur: seq<Message>, threshold: int)
    requires i < |sorted| && RunsInvariant(sorted, i, groups, cur, threshold)
    requires Joins(sorted[i - 1], sorted[i], threshold)
    ensures RunsInvariant(sorted, i + 1, groups, cur + [sorted[i]], threshold)
  {
    JoinKeepsGrouped(groups, cur, sorted[i], threshold);
    assert sorted[..i + 1] == sorted[..i] + [sorted[i]];
    assert Flatten(groups) + (cur + [sorted[i]]) == (Flatten(groups) + cur) + [sorted[i]];
  }

  lemma SplitStep(sorted: seq<Message>, i: int, groups: seq<seq<Message>>, cur: seq<Message>, threshold: int)
    requires i < |sorted| && RunsInvariant(sorted, i, groups, cur, threshold)
    requires !Joins(sorted[i - 1], sorted[i], threshold)
    ensures RunsInvariant(sorted, i + 1, groups + [cur], [sorted[i]], threshold)
  {
    SplitKeepsGrouped(groups, cur, sorted[i], threshold);
    FlattenSnoc(groups, cur);
    assert sorted[..i + 1] == sorted[..i] + [sorted[i]];
  }

  lemma JoinKeepsGrouped(groups: seq<seq<Message>>, cur: seq<Message>, m: Message, threshold: int)
    requires cur != [] && WellGrouped(groups + [cur], threshold)
    requires Joins(cur[|cur| - 1], m, threshold)
    ensures WellGrouped(groups + [cur + [m]], threshold)
  {
    var a := groups + [cur];
    var b := groups + [cur + [m]];
    assert forall k :: 0 <= k < |groups| ==> a[k] == b[k];
    forall k, j | 0 <= k < |b| && 0 < j < |b[k]| ensures Joins(b[k][j - 1], b[k][j], threshold) {
      if k < |groups| {
        assert b[k] == a[k];
      } else if j < |cur| {
        assert b[k][j - 1] == a[k][j - 1] && b[k][j] == a[k][j];
      }
    }
    forall k | 0 < k < |b| && b[k - 1] != [] && b[k] != []
      ensures !Joins(b[k - 1][|b[k - 1]| - 1], b[k][0], threshold)
    {
      assert a[k - 1] == b[k - 1] && a[k][0] == b[k][0];
    }
  }

  lemma SplitKeepsGrouped(groups: seq<seq<Message>>, cur: seq<Message>, m: Message, threshold: int)
    requires cur != [] && WellGrouped(groups + [cur], threshold)
    requires !Joins(cur[|cur| - 1], m, threshold)
    ensures WellGrouped(groups + [cur] + [[m]], threshold)
  {
    var a := groups + [cur];
    var b := a + [[m]];
    assert forall k :: 0 <= k < |a| ==> b[k] == a[k];
  }

  /** `totalHeight`: one row of `itemHeight` per run. */
  function TotalHeight(groups: seq<seq<Message>>, itemHeight: int): int {
    |groups| * itemHeight
  }

  /** `Math.ceil(a / b)` for a positive divisor. */
  function CeilDiv(a: int, b: int): (r: int)
    requires b > 0
    ensures (r - 1) * b < a <= r * b
  {
    -((-a) / b)
  }

  /** One rendered row: the run, its position and its pixel offset. */
  datatype VisibleItem = VisibleItem(group: seq<Message>, index: int, offsetTop: int)

  /** What `getVisibleMessages` returns: every run unwrapped while the container is not
      mounted, otherwise the rows of the window. */
  datatype Visible =
    | AllGroups(groups: seq<seq<Message>>, startIndex: int, endIndex: int)
    | Window(items: seq<VisibleItem>, startIndex: int, endIndex: int, scrollTop: int)

  /** With a non-negative start, a non-empty slice holds at most `|s| - start` items. */
  lemma JsSliceFrom<T>(s: seq<T>, start: int, end: int)
    requires start >= 0
    ensures JsSlice(s, start, end) != [] ==> start + |JsSlice(s, start, end)| <= |s|
  {
  }

  /** `getVisibleMessages`, for a positive `itemHeight`; `container` holds `scrollTop`
      and `clientHeight`. */
  function GetVisibleMessages(groups: seq<seq<Message>>, container: Option<(int, int)>,
                              itemHeight: int, overscan: int): (r: Visible)
    requires itemHeight > 0
    ensures container.None? ==> r == AllGroups(groups, 0, |groups| - 1)
    ensures container.Some? ==> r.Window? && r.scrollTop == container.value.0
    ensures r.Window? ==>
              && 0 <= r.startIndex && r.endIndex <= |groups| - 1
              && r.startIndex == Max(0, container.value.0 / itemHeight - overscan)
              && r.endIndex == Min(|groups| - 1, CeilDiv(container.value.0 + container.value.1, itemHeight) + overscan)
              && (forall i :: 0 <= i < |r.items| ==>
                    r.items[i].index == r.startIndex + i && r.items[i].offsetTop == r.items[i].index * itemHeight)
              && (|r.items| > 0 ==> r.startIndex + |r.items| <= |groups|)
              && (r.endIndex >= -1 ==>
                    && |r.items| == Max(0, r.endIndex + 1 - r.startIndex)
                    && forall i :: 0 <= i < |r.items| ==> r.items[i].group == groups[r.items[i].index])
  {
    match container
    case None => AllGroups(groups, 0, |groups| - 1)
    case Some((scrollTop, clientHeight)) =>
      var startIndex := Max(0, scrollTop / itemHeight - overscan);
      var endIndex := Min(|groups| - 1, CeilDiv(scrollTop + clientHeight, itemHeight) + overscan);
      var slice := JsSlice(groups, startIndex, endIndex + 1);
      JsSliceFrom(groups, startIndex, endIndex + 1);
      var items := seq(|slice|, i requires 0 <= i < |slice| =>
        VisibleItem(slice[i], startIndex + i, (startIndex + i) * itemHeight));
      Window(items, startIndex, endIndex, scrollTop)
  }

  /** Every rendered row lies inside the list's total height. */
  lemma VisibleRowsInsideTotalHeight(groups: seq<seq<Message>>, scrollTop: int, clientHeight: int,
                                     itemHeight: int, overscan: int)
    requires itemHeight > 0
    ensures var r := GetVisibleMessages(groups, Some((scrollTop, clientHeight)), itemHeight, overscan);
            forall i :: 0 <= i < |r.items| ==>
              0 <= r.items[i].offsetTop && r.items[i].offsetTop + itemHeight <= TotalHeight(groups, itemHeight)
  {
    var r := GetVisibleMessages(groups, Some((scrollTop, clientHeight)), itemHeight, overscan);
    forall i | 0 <= i < |r.items|
      ensures 0 <= r.items[i].offsetTop && r.items[i].offsetTop + itemHeight <= TotalHeight(groups, itemHeight)
    {
      var idx := r.items[i].index;
      assert 0 <= idx < |groups|;
      MulDistrib(idx, 1, itemHeight);
      MulMono(idx + 1, |groups|, itemHeight);
    }
  }

  /** `isAtBottom`; `container` holds `scrollTop`, `scrollHeight` and `clientHeight`.
      Without a container the list is not at the bottom. */
  function IsAtBottom(container: Option<(int, int, int)>): (r: bool)
    ensures container.None? ==> !r
  {
    match container
    case None => false
    case Some((scrollTop, scrollHeight, clientHeight)) => scrollHeight - scrollTop - clientHeight < 20
  }

  /** Being at the bottom means the unseen part below the viewport is under 20 px, and
      scrolling further down keeps the list at the bottom. */
  lemma IsAtBottomMeans(scrollTop: int, scrollHeight: int, clientHeight: int, further: nat)
    ensures IsAtBottom(Some((scrollTop, scrollHeight, clientHeight))) <==>
              scrollTop + clientHeight > scrollHeight - 20
    ensures IsAtBottom(Some((scrollTop, scrollHeight, clientHeight))) ==>
              IsAtBottom(Some((scrollTop + further, scrollHeight, clientHeight)))
  {
  }
}
