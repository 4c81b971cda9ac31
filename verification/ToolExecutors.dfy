/** The tool executors of tool_executors.py: which calls reach the orchestrator, and how often. */
module ToolExecutors {
  datatype Tier = FullStreaming | Buffered | Batch

  /** A call as the orchestrator receives it. */
  datatype Observation = Observation(callId: string, blockIndex: int)

  function Ids(calls: seq<string>): set<string> {
    set id | id in calls
  }

  /** The calls that were not seen before, each with its block index. */
  function Unseen(observed: set<string>, calls: seq<string>, offset: int): seq<Observation> {
    if calls == [] then []
    else
      var last := |calls| - 1;
      Unseen(observed, calls[..last], offset) +
      if calls[last] in observed || calls[last] in calls[..last] then [] else [Observation(calls[last], offset + last)]
  }

  class Orchestrator {
    var received: seq<Observation>
    var finalized: bool

    constructor ()
      ensures received == [] && !finalized
    {
      received, finalized := [], false;
    }

    method ObserveToolCall(callId: string, blockIndex: int)
      modifies this`received
      ensures received == old(received) + [Observation(callId, blockIndex)]
    {
      received := received + [Observation(callId, blockIndex)];
    }

    method Finalize()
      modifies this`finalized
      ensures finalized
    {
      finalized := true;
    }
  }

  class ToolExecutor {
    const initialTier: Tier
    const orchestrator: Orchestrator
    var effectiveTier: Tier
    var downgraded: bool
    var observed: set<string>

    constructor (initialTier: Tier, effectiveTier: Tier, orchestrator: Orchestrator, observed: set<string>)
      ensures this.initialTier == initialTier && this.effectiveTier == effectiveTier && !downgraded
      ensures this.orchestrator == orchestrator && this.observed == observed
    {
      this.initialTier, this.effectiveTier, this.orchestrator := initialTier, effectiveTier, orchestrator;
      this.downgraded, this.observed := false, observed;
    }

    method MarkObserved(callId: string) returns (first: bool)
      modifies this`observed
      ensures first == (callId !in old(observed)) && observed == old(observed) + {callId}
    {
      if callId in observed {
        return false;
      }
      observed := observed + {callId};
      return true;
    }

    /** The loop that both the streaming and the buffered executor run. */
    method ObserveAll(calls: seq<string>, offset: int)
      modifies this`observed, orchestrator`received
      ensures observed == old(observed) + Ids(calls)
      ensures orchestrator.received == old(orchestrator.received) + Unseen(old(observed), calls, offset)
    {
      ghost var start, before := observed, orchestrator.received;
      for index := 0 to |calls|
        invariant observed == start + Ids(calls[..index])
        invariant orchestrator.received == before + Unseen(start, calls[..index], offset)
      {
        assert calls[..index + 1] == calls[..index] + [calls[index]] && calls[..index + 1][..index] == calls[..index];
        var first := MarkObserved(calls[index]);
        if !first {
          continue;
        }
        orchestrator.ObserveToolCall(calls[index], offset + index);
      }
      assert calls[..|calls|] == calls;
    }

    /** Only the full streaming executor listens to the stream, and only while it has not been downgraded. */
    method ObserveStreamCalls(calls: seq<string>, blockOffset: int)
      modifies this`observed, orchestrator`received
      ensures Snapshot() == Streamed(old(Snapshot()), calls, blockOffset)
    {
      if initialTier != FullStreaming || effectiveTier != FullStreaming {
        return;
      }
      ObserveAll(calls, blockOffset);
    }

    method Finalize(calls: seq<string>, hasPendingToolUse: bool)
      modifies this, orchestrator
      ensures Snapshot() == Finished(old(Snapshot()), calls, hasPendingToolUse)
      ensures orchestrator.finalized
      ensures effectiveTier ==
              if initialTier == FullStreaming == old(effectiveTier) && hasPendingToolUse then Buffered
              else old(effectiveTier)
      ensures downgraded ==
          (old(downgraded) || (old(effectiveTier) == FullStreaming == initialTier && hasPendingToolUse))
    {
      if initialTier == FullStreaming {
        if hasPendingToolUse && effectiveTier == FullStreaming {
          effectiveTier, downgraded := Buffered, true;
        }
        if effectiveTier != FullStreaming {
          var buffered := new ToolExecutor(initialTier, effectiveTier, orchestrator, observed);
          buffered.ObserveAll(calls, 0);
        }
      } else {
        ObserveAll(calls, 0);
      }
      orchestrator.Finalize();
    }

    ghost function Snapshot(): State
      reads this, orchestrator
    {
      State(initialTier, effectiveTier, observed, orchestrator.received)
    }
  }

  // ---- the executor as a value ---------------------------------------------------------------------

  datatype State = State(initialTier: Tier, effectiveTier: Tier, observed: set<string>, received: seq<Observation>) {
    predicate Listens() { initialTier == FullStreaming && effectiveTier == FullStreaming }
  }

  function Forwarded(s: State, calls: seq<string>, offset: int): State {
    s.(observed := s.observed + Ids(calls), received := s.received + Unseen(s.observed, calls, offset))
  }

  function Streamed(s: State, calls: seq<string>, offset: int): State {
    if s.Listens() then Forwarded(s, calls, offset) else s
  }

  /** A downgraded executor hands a copy of its observed ids to the buffered one it delegates to. */
  function Finished(s: State, calls: seq<string>, pending: bool): State {
    if s.initialTier != FullStreaming then Forwarded(s, calls, 0)
    else
      var tier := if pending && s.effectiveTier == FullStreaming then Buffered else s.effectiveTier;
      var after := s.(effectiveTier := tier);
      if tier == FullStreaming then after else Forwarded(after, calls, 0).(observed := s.observed)
  }

  datatype StreamBatch = StreamBatch(calls: seq<string>, offset: int)

  function StreamedAll(s: State, batches: seq<StreamBatch>): State {
    if batches == [] then s
    else
      var last := |batches| - 1;
      Streamed(StreamedAll(s, batches[..last]), batches[last].calls, batches[last].offset)
  }

  function StreamedIds(batches: seq<StreamBatch>): set<string> {
    set k, id | 0 <= k < |batches| && id in batches[k].calls :: id
  }

  predicate NoRepeat(received: seq<Observation>) {
    forall i, j | 0 <= i < j < |received| :: received[i].callId != received[j].callId
  }

  function ReceivedIds(received: seq<Observation>): set<string> {
    set k | 0 <= k < |received| :: received[k].callId
  }

  lemma {:induction false} UnseenMeaning(observed: set<string>, calls: seq<string>, offset: int)
    ensures NoRepeat(Unseen(observed, calls, offset))
    ensures ReceivedIds(Unseen(observed, calls, offset)) == Ids(calls) - observed
  {
    if calls == [] {
    } else {
      var last := |calls| - 1;
      var front := calls[..last];
      assert calls == front + [calls[last]];
      UnseenMeaning(observed, front, offset);
      var before, all := Unseen(observed, front, offset), Unseen(observed, calls, offset);
      if !(calls[last] in observed || calls[last] in front) {
        ReceivedAppend(before, [Observation(calls[last], offset + last)]);
        ReceivedOne(Observation(calls[last], offset + last));
        assert calls[last] !in ReceivedIds(before);
        assert all == before + [Observation(calls[last], offset + last)];
        assert Ids(calls) - observed == (Ids(front) - observed) + {calls[last]};
      } else {
        assert all == before && Ids(calls) - observed == Ids(front) - observed;
      }
    }
  }

  /** The observation carries the block index of the first occurrence of its call. */
  predicate IndexedIn(calls: seq<string>, offset: int, o: Observation) {
    var k := o.blockIndex - offset;
    0 <= k < |calls| && calls[k] == o.callId && o.callId !in calls[..k]
  }

  lemma IndexedLonger(front: seq<string>, last: string, offset: int, o: Observation)
    ensures IndexedIn(front, offset, o) ==> IndexedIn(front + [last], offset, o) && o.blockIndex < offset + |front|
    ensures last !in front ==> IndexedIn(front + [last], offset, Observation(last, offset + |front|))
  {
    var all := front + [last];
    assert forall k | 0 <= k <= |front| :: all[..k] == front[..k];
    assert front[..|front|] == front;
  }

  predicate Rising(received: seq<Observation>) {
    forall j, k | 0 <= j < k < |received| :: received[j].blockIndex < received[k].blockIndex
  }

  lemma RisingAppend(received: seq<Observation>, o: Observation)
    requires Rising(received) && forall b | b in received :: b.blockIndex < o.blockIndex
    ensures Rising(received + [o])
  {
    assert forall k | 0 <= k < |received| :: received[k] in received;
  }

  /** Each forwarded call carries the block index of its first occurrence, and they come in that order. */
  lemma {:induction false} UnseenIndexes(observed: set<string>, calls: seq<string>, offset: int)
    ensures forall o | o in Unseen(observed, calls, offset) :: IndexedIn(calls, offset, o)
    ensures Rising(Unseen(observed, calls, offset))
  {
    hide IndexedIn;
    if calls == [] {
    } else {
      var last := |calls| - 1;
      var front := calls[..last];
      var before, o := Unseen(observed, front, offset), Observation(calls[last], offset + last);
      assert calls == front + [calls[last]];
      assert Unseen(observed, calls, offset) ==
        if calls[last] in observed || calls[last] in front then before else before + [o];
      UnseenIndexes(observed, front, offset);
      hide Unseen, Rising;
      forall b | b in before ensures IndexedIn(calls, offset, b) && b.blockIndex < o.blockIndex {
        IndexedLonger(front, calls[last], offset, b);
      }
      IndexedLonger(front, calls[last], offset, o);
      RisingAppend(before, o);
    }
  }

  lemma ReceivedOne(o: Observation)
    ensures ReceivedIds([o]) == {o.callId}
  {
    assert [o][0] == o;
  }

  lemma ReceivedAppend(a: seq<Observation>, b: seq<Observation>)
    ensures ReceivedIds(a + b) == ReceivedIds(a) + ReceivedIds(b)
    ensures NoRepeat(a) && NoRepeat(b) && ReceivedIds(a) !! ReceivedIds(b) ==> NoRepeat(a + b)
    ensures NoRepeat(a + b) ==> ReceivedIds(a) !! ReceivedIds(b)
  {
    var all := a + b;
    assert forall k | 0 <= k < |a| :: all[k] == a[k];
    assert forall k | 0 <= k < |b| :: all[|a| + k] == b[k];
    forall id ensures id in ReceivedIds(all) <==> id in ReceivedIds(a) + ReceivedIds(b) {
      if id in ReceivedIds(a) {
        var k :| 0 <= k < |a| && a[k].callId == id;
        assert all[k].callId == id;
      }
      if id in ReceivedIds(b) {
        var k :| 0 <= k < |b| && b[k].callId == id;
        assert all[|a| + k].callId == id;
      }
    }
    if !(ReceivedIds(a) !! ReceivedIds(b)) {
      var id :| id in ReceivedIds(a) && id in ReceivedIds(b);
      var i :| 0 <= i < |a| && a[i].callId == id;
      var j :| 0 <= j < |b| && b[j].callId == id;
      assert all[i].callId == all[|a| + j].callId;
    }
    if NoRepeat(a) && NoRepeat(b) && ReceivedIds(a) !! ReceivedIds(b) {
      forall i, j | 0 <= i < j < |all| ensures all[i].callId != all[j].callId {
        if i < |a| <= j {
          assert all[i].callId in ReceivedIds(a) && all[j].callId in ReceivedIds(b);
        }
      }
    }
  }

  /** What an executor has seen is exactly what the orchestrator received, once each. */
  predicate InStep(s: State) {
    NoRepeat(s.received) && ReceivedIds(s.received) == s.observed
  }

  lemma ForwardedOnce(s: State, calls: seq<string>, offset: int)
    requires InStep(s)
    ensures InStep(Forwarded(s, calls, offset))
  {
    UnseenMeaning(s.observed, calls, offset);
    ReceivedAppend(s.received, Unseen(s.observed, calls, offset));
  }

  lemma {:induction false} StreamedOnce(s: State, batches: seq<StreamBatch>)
    requires InStep(s)
    ensures var t := StreamedAll(s, batches);
            && InStep(t) && t.initialTier == s.initialTier && t.effectiveTier == s.effectiveTier
            && t.observed == if s.Listens() then s.observed + StreamedIds(batches) else s.observed
  {
    if batches == [] {
    } else {
      var last := |batches| - 1;
      var front := batches[..last];
      StreamedOnce(s, front);
      ForwardedOnce(StreamedAll(s, front), batches[last].calls, batches[last].offset);
      assert StreamedIds(batches) == StreamedIds(front) + Ids(batches[last].calls) by {
        assert forall k | 0 <= k < last :: front[k] == batches[k];
        assert forall id | id in StreamedIds(front) :: id in StreamedIds(batches);
        assert forall id | id in Ids(batches[last].calls) :: id in StreamedIds(batches);
      }
    }
  }

  /** Any series of stream batches and one finalize: no call reaches the orchestrator twice, and the calls that
      reach it are the streamed ones, with the finalized ones added on every path but the undisturbed stream. */
  lemma ExactlyOnceObservation(tier: Tier, batches: seq<StreamBatch>, calls: seq<string>, pending: bool)
    ensures var streamed := StreamedAll(State(tier, tier, {}, []), batches);
            var received := Finished(streamed, calls, pending).received;
            && NoRepeat(received)
            && (tier == FullStreaming && !pending ==> ReceivedIds(received) == StreamedIds(batches))
            && (tier == FullStreaming && pending ==> ReceivedIds(received) == StreamedIds(batches) + Ids(calls))
            && (tier != FullStreaming ==> ReceivedIds(received) == Ids(calls))
  {
    var start := State(tier, tier, {}, []);
    StreamedOnce(start, batches);
    var streamed := StreamedAll(start, batches);
    ForwardedOnce(streamed, calls, 0);
    UnseenMeaning(streamed.observed, calls, 0);
    ReceivedAppend(streamed.received, Unseen(streamed.observed, calls, 0));
  }

  /** The promise covers one finalize only: a second one on a downgraded executor repeats exactly the calls that
      both bring and the stream had not shown. */
  lemma SecondFinalizeExact(s: State, first: seq<string>, second: seq<string>,
                            pending: bool, pendingAgain: bool)
    requires InStep(s) && s.initialTier == FullStreaming && (s.effectiveTier != FullStreaming || pending)
    ensures var twice := Finished(Finished(s, first, pending), second, pendingAgain);
            NoRepeat(twice.received) <==> Ids(first) * Ids(second) <= s.observed
  {
    var once := Finished(s, first, pending);
    var a, b := Unseen(s.observed, first, 0), Unseen(s.observed, second, 0);
    UnseenMeaning(s.observed, first, 0);
    UnseenMeaning(s.observed, second, 0);
    ReceivedAppend(s.received, a);
    ReceivedAppend(s.received + a, b);
    assert once.received == s.received + a && once.observed == s.observed;
  }
}
