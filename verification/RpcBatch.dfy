/** The batching of ubus calls: calls issued in one tick are flushed together, a failed direct request is
    retried through the dispatcher, and replies find their calls by id or by position. */
module RpcBatch {
  import opened Wrappers
  import opened Text

  datatype Call = Call(id: nat, object_: string, method_: string)

  /** The parts of a reply that decide what becomes of a call. */
  datatype Body = ErrorBody | NoResult | Result(rc: int, data: string)

  /** A reply that is an object, with the text of its id where it has one. */
  datatype Reply = Reply(id: Option<string>, body: Body)

  datatype Outcome = Resolved(data: string) | Rejected

  datatype Settlement = Settlement(id: nat, outcome: Outcome)

  const FALLBACK := "admin/ubus"

  // ---------- replies ----------

  function DecodeReply(reply: Option<Reply>): Outcome {
    if reply == None then Rejected
    else
      match reply.value.body
      case ErrorBody => Rejected
      case NoResult => Rejected
      case Result(rc, data) => if rc != 0 then Rejected else Resolved(data)
  }

  predicate HasId(reply: Option<Reply>) {
    reply.Some? && reply.value.id.Some?
  }

  predicate CarriesId(reply: Option<Reply>, id: nat) {
    HasId(reply) && reply.value.id.value == Decimal(id)
  }

  ghost predicate HaveIds(replies: seq<Option<Reply>>) {
    exists k :: 0 <= k < |replies| && HasId(replies[k])
  }

  /** The reply that belongs to a call: the last one with its id if any reply has an id, and otherwise the
      one at its position. */
  ghost predicate BelongsTo(reply: Option<Reply>, call: Call, index: nat, replies: seq<Option<Reply>>) {
    if HaveIds(replies) then
      if exists k :: 0 <= k < |replies| && CarriesId(replies[k], call.id) then
        exists k :: 0 <= k < |replies| && IsLastWithId(replies, k, call.id) && reply == replies[k]
      else reply == None
    else reply == if index < |replies| then replies[index] else None
  }

  ghost predicate IsLastWithId(replies: seq<Option<Reply>>, k: nat, id: nat) {
    && k < |replies| && CarriesId(replies[k], id)
    && forall j :: k < j < |replies| ==> !CarriesId(replies[j], id)
  }

  /** Each call of a batch is settled once, in order, by the reply that belongs to it. */
  ghost predicate AreSettledBy(settled: seq<Settlement>, calls: seq<Call>, replies: seq<Option<Reply>>) {
    && |settled| == |calls|
    && forall i :: 0 <= i < |calls| ==> IsSettledBy(settled[i], calls[i], i, replies)
  }

  /** The reply that belongs to a call has code 0 and these data. */
  ghost predicate Answers(replies: seq<Option<Reply>>, call: Call, index: nat, data: string) {
    exists reply :: BelongsTo(reply, call, index, replies) && reply.Some? && reply.value.body == Result(0, data)
  }

  /** A call is resolved with the data of its reply exactly if that has code 0; in all other cases, without a reply,
      with an error, without a result or with another code, it is rejected. */
  ghost predicate IsSettledBy(s: Settlement, call: Call, index: nat, replies: seq<Option<Reply>>) {
    && s.id == call.id
    && (forall data :: s.outcome == Resolved(data) <==> Answers(replies, call, index, data))
    && (s.outcome == Rejected <==> !exists data :: Answers(replies, call, index, data))
  }

  /** Only one reply belongs to a call. */
  lemma BelongsOnce(a: Option<Reply>, b: Option<Reply>, call: Call, index: nat, replies: seq<Option<Reply>>)
    requires BelongsTo(a, call, index, replies) && BelongsTo(b, call, index, replies)
    ensures a == b
  {
    hide CarriesId;
    if HaveIds(replies) && exists k :: 0 <= k < |replies| && CarriesId(replies[k], call.id) {
      var i :| 0 <= i < |replies| && IsLastWithId(replies, i, call.id) && a == replies[i];
      var j :| 0 <= j < |replies| && IsLastWithId(replies, j, call.id) && b == replies[j];
      assert i == j;
    }
  }

  ghost predicate IsIndex(byId: map<string, Option<Reply>>, replies: seq<Option<Reply>>, n: nat)
    requires n <= |replies|
  {
    && (forall key :: key in byId ==>
         exists k :: 0 <= k < n && byId[key] == replies[k] && HasId(replies[k]) && replies[k].value.id.value == key
                     && forall j :: k < j < n && HasId(replies[j]) ==> replies[j].value.id.value != key)
    && (forall k :: 0 <= k < n && HasId(replies[k]) ==> replies[k].value.id.value in byId)
  }

  method IndexReplies(replies: seq<Option<Reply>>) returns (byId: map<string, Option<Reply>>, hasIds: bool)
    ensures IsIndex(byId, replies, |replies|) && (hasIds <==> HaveIds(replies))
  {
    byId, hasIds := map[], false;
    for n := 0 to |replies|
      invariant IsIndex(byId, replies, n)
      invariant hasIds <==> exists k :: 0 <= k < n && HasId(replies[k])
    {
      ghost var before := byId;
      if HasId(replies[n]) {
        byId := byId[replies[n].value.id.value := replies[n]];
        hasIds := true;
      }
      IndexNext(before, replies, n, byId);
    }
  }

  lemma IndexNext(before: map<string, Option<Reply>>, replies: seq<Option<Reply>>, n: nat, after: map<string, Option<Reply>>)
    requires n < |replies| && IsIndex(before, replies, n)
    requires after == if HasId(replies[n]) then before[replies[n].value.id.value := replies[n]] else before
    ensures IsIndex(after, replies, n + 1)
  {
    forall key | key in after
      ensures exists k :: 0 <= k < n + 1 && after[key] == replies[k] && HasId(replies[k]) && replies[k].value.id.value == key
                          && forall j :: k < j < n + 1 && HasId(replies[j]) ==> replies[j].value.id.value != key
    {
      if HasId(replies[n]) && key == replies[n].value.id.value {
        assert after[key] == replies[n];
      } else {
        var k :| 0 <= k < n && before[key] == replies[k] && HasId(replies[k]) && replies[k].value.id.value == key
                 && forall j :: k < j < n && HasId(replies[j]) ==> replies[j].value.id.value != key;
        assert after[key] == replies[k];
      }
    }
  }

  lemma FoundById(byId: map<string, Option<Reply>>, replies: seq<Option<Reply>>, call: Call, index: nat, reply: Option<Reply>)
    requires IsIndex(byId, replies, |replies|) && HaveIds(replies)
    requires reply == if Decimal(call.id) in byId then byId[Decimal(call.id)] else None
    ensures BelongsTo(reply, call, index, replies)
  {
    hide Decimal;
    var key := Decimal(call.id);
    if key in byId {
      var k := IndexedAt(byId, replies, key);
      LastWithId(replies, k, call, index);
    } else {
      hide BelongsTo;
      NoneWithId(byId, replies, call, index);
    }
  }

  lemma IndexedAt(byId: map<string, Option<Reply>>, replies: seq<Option<Reply>>, key: string) returns (k: nat)
    requires IsIndex(byId, replies, |replies|) && key in byId
    ensures k < |replies| && byId[key] == replies[k] && HasId(replies[k]) && replies[k].value.id.value == key
    ensures forall j :: k < j < |replies| && HasId(replies[j]) ==> replies[j].value.id.value != key
  {
    k :| 0 <= k < |replies| && byId[key] == replies[k] && HasId(replies[k]) && replies[k].value.id.value == key
         && forall j :: k < j < |replies| && HasId(replies[j]) ==> replies[j].value.id.value != key;
  }

  lemma LastWithId(replies: seq<Option<Reply>>, k: nat, call: Call, index: nat)
    requires k < |replies| && CarriesId(replies[k], call.id) && HaveIds(replies)
    requires forall j :: k < j < |replies| && HasId(replies[j]) ==> replies[j].value.id.value != Decimal(call.id)
    ensures BelongsTo(replies[k], call, index, replies)
  {
    hide Decimal;
    assert IsLastWithId(replies, k, call.id);
    hide IsLastWithId, CarriesId, HaveIds;
    assert exists i :: 0 <= i < |replies| && CarriesId(replies[i], call.id);
    assert exists i :: 0 <= i < |replies| && IsLastWithId(replies, i, call.id) && replies[k] == replies[i];
  }

  lemma NoneWithId(byId: map<string, Option<Reply>>, replies: seq<Option<Reply>>, call: Call, index: nat)
    requires IsIndex(byId, replies, |replies|) && HaveIds(replies) && Decimal(call.id) !in byId
    ensures BelongsTo(None, call, index, replies)
  {
    hide Decimal;
    forall k | 0 <= k < |replies|
      ensures !CarriesId(replies[k], call.id)
    {
      if HasId(replies[k]) {
        assert replies[k].value.id.value in byId;
      }
    }
  }

  lemma SettledByReply(reply: Option<Reply>, call: Call, index: nat, replies: seq<Option<Reply>>)
    requires BelongsTo(reply, call, index, replies)
    ensures IsSettledBy(Settlement(call.id, DecodeReply(reply)), call, index, replies)
  {
    hide BelongsTo;
    var outcome := DecodeReply(reply);
    forall data
      ensures outcome == Resolved(data) <==> Answers(replies, call, index, data)
    {
      if Answers(replies, call, index, data) {
        var other :| BelongsTo(other, call, index, replies) && other.Some? && other.value.body == Result(0, data);
        BelongsOnce(reply, other, call, index, replies);
      }
    }
    if outcome.Resolved? {
      assert Answers(replies, call, index, outcome.data);
    }
  }

  method DispatchReplies(calls: seq<Call>, replies: seq<Option<Reply>>) returns (settled: seq<Settlement>)
    ensures AreSettledBy(settled, calls, replies)
  {
    var byId, hasIds := IndexReplies(replies);
    settled := [];
    for index := 0 to |calls|
      invariant |settled| == index
      invariant forall i :: 0 <= i < index ==> IsSettledBy(settled[i], calls[i], i, replies)
    {
      hide IsIndex, Decimal, IsSettledBy;
      var call := calls[index];
      var key := Decimal(call.id);
      var reply :=
        if hasIds then (if key in byId then byId[key] else None)
        else if index < |replies| then replies[index] else None;
      if hasIds {
        FoundById(byId, replies, call, index, reply);
      }
      SettledByReply(reply, call, index, replies);
      settled := settled + [Settlement(call.id, DecodeReply(reply))];
    }
  }

  // ---------- the batcher ----------

  /** A batch in flight: its calls, the endpoint it was sent to, and whether it is being retried. */
  datatype Batch = Batch(calls: seq<Call>, url: string, retried: bool)

  datatype Arrival = Failure | Replies(replies: seq<Option<Reply>>)

  /** Something that happens: a view issues a call, the microtask queue runs the flush, a request ends. */
  datatype Event = Issue(object_: string, method_: string) | RunMicrotask | Arrive(batch: nat, arrival: Arrival)

  function Ids(calls: seq<Call>): seq<nat> {
    seq(|calls|, i requires 0 <= i < |calls| => calls[i].id)
  }

  function SettledIds(s: seq<Settlement>): seq<nat> {
    seq(|s|, i requires 0 <= i < |s| => s[i].id)
  }

  function FlightIds(flights: seq<Batch>): seq<nat> {
    if flights == [] then [] else FlightIds(flights[..|flights| - 1]) + Ids(flights[|flights| - 1].calls)
  }

  /** All ids that were given out: 1 to next - 1. */
  function Issued(next: nat): multiset<nat> {
    if next <= 1 then multiset{} else Issued(next - 1) + multiset{next - 1}
  }

  /** Every call is in exactly one place: pending, in one batch in flight, or settled once. */
  ghost predicate Accounted(pending: seq<Call>, flights: seq<Batch>, settled: seq<Settlement>, next: nat) {
    multiset(Ids(pending)) + multiset(FlightIds(flights)) + multiset(SettledIds(settled)) == Issued(next)
  }

  lemma IssueAccounted(pending: seq<Call>, flights: seq<Batch>, settled: seq<Settlement>, next: nat, call: Call)
    requires Accounted(pending, flights, settled, next) && next > 0 && call.id == next
    ensures Accounted(pending + [call], flights, settled, next + 1)
  {
    assert Ids(pending + [call]) == Ids(pending) + [call.id];
  }

  lemma FlushAccounted(pending: seq<Call>, flights: seq<Batch>, settled: seq<Settlement>, next: nat, url: string)
    requires Accounted(pending, flights, settled, next)
    ensures Accounted([], flights + [Batch(pending, url, false)], settled, next)
  {
    FlightIdsAppend(flights, [Batch(pending, url, false)]);
    OneFlight(Batch(pending, url, false));
    assert Ids([]) == [];
  }

  lemma OneFlight(b: Batch)
    ensures FlightIds([b]) == Ids(b.calls)
  {
    assert [b][..0] == [];
    assert [] + Ids(b.calls) == Ids(b.calls);
  }

  lemma {:induction false} FlightIdsAppend(a: seq<Batch>, b: seq<Batch>)
    ensures FlightIds(a + b) == FlightIds(a) + FlightIds(b)
  {
    hide Ids;
    if b == [] {
      assert a + b == a;
    } else {
      var n := |b| - 1;
      assert (a + b)[..|a + b| - 1] == a + b[..n];
      FlightIdsAppend(a, b[..n]);
      Regroup(FlightIds(a), FlightIds(b[..n]), Ids(b[n].calls));
    }
  }

  lemma Regroup(x: seq<nat>, y: seq<nat>, z: seq<nat>)
    ensures x + y + z == x + (y + z)
  {
  }

  lemma FlightAt(flights: seq<Batch>, k: nat)
    requires k < |flights|
    ensures FlightIds(flights) == FlightIds(flights[..k]) + Ids(flights[k].calls) + FlightIds(flights[k + 1..])
  {
    hide FlightIds, Ids;
    var a, m, c := flights[..k], [flights[k]], flights[k + 1..];
    SplitAt(flights, k);
    FlightIdsAppend(a + m, c);
    FlightIdsAppend(a, m);
    OneFlight(flights[k]);
  }

  lemma SplitAt(s: seq<Batch>, k: nat)
    requires k < |s|
    ensures s == s[..k] + [s[k]] + s[k + 1..]
  {
  }

  /** A batch that is sent again keeps its calls. */
  lemma RetryAccounted(pending: seq<Call>, flights: seq<Batch>, settled: seq<Settlement>, next: nat, k: nat, b: Batch)
    requires Accounted(pending, flights, settled, next) && k < |flights| && b.calls == flights[k].calls
    ensures Accounted(pending, flights[k := b], settled, next)
  {
    FlightAt(flights, k);
    FlightAt(flights[k := b], k);
  }

  /** A batch whose calls are settled leaves. */
  lemma SettleAccounted(pending: seq<Call>, flights: seq<Batch>, settled: seq<Settlement>, next: nat, k: nat, more: seq<Settlement>)
    requires Accounted(pending, flights, settled, next) && k < |flights| && SettledIds(more) == Ids(flights[k].calls)
    ensures Accounted(pending, flights[..k] + flights[k + 1..], settled + more, next)
  {
    SettledAppend(settled, more);
    hide Ids, FlightIds, SettledIds, Issued;
    FlightAt(flights, k);
    FlightIdsAppend(flights[..k], flights[k + 1..]);
  }

  lemma SettledAppend(a: seq<Settlement>, b: seq<Settlement>)
    ensures SettledIds(a + b) == SettledIds(a) + SettledIds(b)
  {
  }

  lemma SettledIdsAre(settled: seq<Settlement>, calls: seq<Call>)
    requires |settled| == |calls| && forall i :: 0 <= i < |calls| ==> settled[i].id == calls[i].id
    ensures SettledIds(settled) == Ids(calls)
  {
  }

  /** Every call of a batch fails. */
  function RejectAll(calls: seq<Call>): seq<Settlement> {
    seq(|calls|, i requires 0 <= i < |calls| => Settlement(calls[i].id, Rejected))
  }

  class Batcher {
    const direct: string
    var requestId: nat
    var endpoint: Option<string>
    var flushScheduled: bool
    var pendingCalls: seq<Call>
    // the environment: queued microtasks, requests under way, and every settlement so far
    var microtasks: nat
    var flights: seq<Batch>
    var settled: seq<Settlement>

    ghost predicate Valid()
      reads this
    {
      && requestId > 0 && Accounted(pendingCalls, flights, settled, requestId)
      && microtasks == (if flushScheduled then 1 else 0)
      && (pendingCalls != [] ==> flushScheduled)
      && (endpoint.Some? ==> IsEndpoint(endpoint.value))
    }

    predicate IsEndpoint(url: string) {
      url == FALLBACK || (direct != "" && url == direct)
    }

    constructor (ubuspath: string)
      ensures Valid() && direct == ubuspath && requestId == 1 && pendingCalls == [] && flights == [] && settled == []
      ensures endpoint == None && !flushScheduled
    {
      direct := ubuspath;
      requestId, endpoint, flushScheduled, pendingCalls := 1, None, false, [];
      microtasks, flights, settled := 0, [], [];
    }

    /** call: the call waits for the flush, which is scheduled unless it already is. */
    method Issue(object_: string, method_: string)
      requires Valid()
      modifies this
      ensures Valid() && requestId == old(requestId) + 1
      ensures pendingCalls == old(pendingCalls) + [Call(old(requestId), object_, method_)] && flushScheduled
      ensures flights == old(flights) && settled == old(settled) && endpoint == old(endpoint)
    {
      hide Accounted;
      var call := Call(requestId, object_, method_);
      IssueAccounted(pendingCalls, flights, settled, requestId, call);
      pendingCalls := pendingCalls + [call];
      requestId := requestId + 1;
      if !flushScheduled {
        flushScheduled := true;
        microtasks := microtasks + 1;
      }
    }

    /** The endpoint of the next batch; it is remembered. */
    method SelectEndpoint() returns (url: string)
      modifies `endpoint
      ensures endpoint == Some(url)
      ensures url == if old(endpoint).Some? then old(endpoint).value else if direct != "" then direct else FALLBACK
    {
      if endpoint == None {
        endpoint := Some(if direct != "" then direct else FALLBACK);
      }
      url := endpoint.value;
    }

    /** The queued microtask: all pending calls leave as one batch. */
    method FlushCalls()
      requires Valid() && microtasks > 0
      modifies this
      ensures Valid() && !flushScheduled && pendingCalls == [] && requestId == old(requestId) && settled == old(settled)
      ensures old(pendingCalls) == [] ==> flights == old(flights) && endpoint == old(endpoint)
      ensures old(pendingCalls) != [] ==>
        && endpoint.Some? && (old(endpoint).Some? ==> endpoint == old(endpoint))
        && flights == old(flights) + [Batch(old(pendingCalls), endpoint.value, false)]
    {
      hide Accounted;
      microtasks := microtasks - 1;
      flushScheduled := false;
      if pendingCalls == [] {
        return;
      }
      var calls := pendingCalls;
      pendingCalls := [];
      var url := SelectEndpoint();
      FlushAccounted(calls, flights, settled, requestId, url);
      flights := flights + [Batch(calls, url, false)];
    }

    /** A request ends. A failed direct request is sent again through the dispatcher; the dispatcher is
        remembered once that works. All other ends settle every call of the batch. */
    method Arrived(k: nat, arrival: Arrival)
      requires Valid() && k < |flights|
      modifies this
      ensures Valid() && requestId == old(requestId) && pendingCalls == old(pendingCalls) && flushScheduled == old(flushScheduled)
      ensures var b := old(flights[k]);
        match arrival
        case Failure =>
          && endpoint == old(endpoint)
          && if b.url != FALLBACK && !b.retried then
               settled == old(settled) && flights == old(flights)[k := b.(retried := true)]
             else
               settled == old(settled) + RejectAll(b.calls) && flights == old(flights[..k]) + old(flights[k + 1..])
        case Replies(replies) =>
          && endpoint == (if b.retried then Some(FALLBACK) else old(endpoint))
          && flights == old(flights[..k]) + old(flights[k + 1..])
          && |settled| >= |old(settled)| && settled[..|old(settled)|] == old(settled)
          && AreSettledBy(settled[|old(settled)|..], b.calls, replies)
    {
      hide Accounted, AreSettledBy, IsSettledBy;
      var b := flights[k];
      match arrival {
        case Failure =>
          if b.url != FALLBACK && !b.retried {
            RetryAccounted(pendingCalls, flights, settled, requestId, k, b.(retried := true));
            flights := flights[k := b.(retried := true)];
          } else {
            SettledIdsAre(RejectAll(b.calls), b.calls);
            SettleAccounted(pendingCalls, flights, settled, requestId, k, RejectAll(b.calls));
            settled := settled + RejectAll(b.calls);
            flights := flights[..k] + flights[k + 1..];
          }
        case Replies(replies) =>
          if b.retried {
            endpoint := Some(FALLBACK);
          }
          var more := DispatchReplies(b.calls, replies);
          SettledByIds(more, b.calls, replies);
          SettleAccounted(pendingCalls, flights, settled, requestId, k, more);
          settled := settled + more;
          flights := flights[..k] + flights[k + 1..];
      }
    }

    /** One event; events that are not possible now do not happen. */
    method Happen(event: Event)
      requires Valid()
      modifies this
      ensures Valid() && requestId >= old(requestId)
      ensures |settled| >= |old(settled)| && settled[..|old(settled)|] == old(settled)
      ensures old(endpoint) == Some(FALLBACK) ==> endpoint == Some(FALLBACK)
      ensures old(endpoint).Some? ==> endpoint == old(endpoint) || endpoint == Some(FALLBACK)
      ensures forall i :: |old(settled)| <= i < |settled| && settled[i].outcome.Resolved? ==> IsAnswered(settled[i], event)
    {
      hide Accounted, AreSettledBy;
      match event {
        case Issue(object_, method_) =>
          Issue(object_, method_);
        case RunMicrotask =>
          if microtasks > 0 {
            FlushCalls();
          }
        case Arrive(batch, arrival) =>
          if batch < |flights| {
            ghost var before, calls := settled, flights[batch].calls;
            Arrived(batch, arrival);
            if arrival.Replies? {
              SettledFromReplies(settled[|before|..], calls, batch, arrival.replies);
            }
          }
      }
    }

    /** Any run: what is settled stays settled, and the endpoint only moves to the dispatcher. */
    method Run(events: seq<Event>)
      requires Valid()
      modifies this
      ensures Valid() && requestId >= old(requestId)
      ensures |settled| >= |old(settled)| && settled[..|old(settled)|] == old(settled)
      ensures old(endpoint) == Some(FALLBACK) ==> endpoint == Some(FALLBACK)
      ensures old(endpoint).Some? ==> endpoint == old(endpoint) || endpoint == Some(FALLBACK)
      // a call is resolved only with the data of a reply that belongs to it and has code 0
      ensures AreAnswered(settled[|old(settled)|..], events)
    {
      hide Accounted;
      for k := 0 to |events|
        invariant Valid() && requestId >= old(requestId)
        invariant |settled| >= |old(settled)| && settled[..|old(settled)|] == old(settled)
        invariant old(endpoint) == Some(FALLBACK) ==> endpoint == Some(FALLBACK)
        invariant old(endpoint).Some? ==> endpoint == old(endpoint) || endpoint == Some(FALLBACK)
        invariant AreAnswered(settled[|old(settled)|..], events[..k])
      {
        ghost var before := settled;
        Happen(events[k]);
        MoreAnswered(before[|old(settled)|..], settled[|old(settled)|..], events, k);
        assert settled[..|before|] == before;
        assert settled[..|old(settled)|] == settled[..|before|][..|old(settled)|];
      }
    }
  }

  /** An arrival brings the reply that resolves a call: one with code 0 and the data of the settlement. */
  ghost predicate IsAnswered(s: Settlement, event: Event)
    requires s.outcome.Resolved?
  {
    && event.Arrive? && event.arrival.Replies?
    && exists call: Call, index: nat :: call.id == s.id && Answers(event.arrival.replies, call, index, s.outcome.data)
  }

  ghost predicate IsAnsweredIn(s: Settlement, events: seq<Event>)
    requires s.outcome.Resolved?
  {
    exists k :: 0 <= k < |events| && IsAnswered(s, events[k])
  }

  ghost predicate AreAnswered(settled: seq<Settlement>, events: seq<Event>) {
    forall i :: 0 <= i < |settled| && settled[i].outcome.Resolved? ==> IsAnsweredIn(settled[i], events)
  }

  lemma SettledFromReplies(settled: seq<Settlement>, calls: seq<Call>, batch: nat, replies: seq<Option<Reply>>)
    requires AreSettledBy(settled, calls, replies)
    ensures forall i :: 0 <= i < |settled| && settled[i].outcome.Resolved? ==>
      IsAnswered(settled[i], Arrive(batch, Replies(replies)))
  {
    hide Answers;
    forall i | 0 <= i < |settled| && settled[i].outcome.Resolved?
      ensures IsAnswered(settled[i], Arrive(batch, Replies(replies)))
    {
      assert IsSettledBy(settled[i], calls[i], i, replies);
      assert Answers(replies, calls[i], i, settled[i].outcome.data);
    }
  }

  lemma MoreAnswered(before: seq<Settlement>, after: seq<Settlement>, events: seq<Event>, k: nat)
    requires k < |events| && |before| <= |after| && after[..|before|] == before && AreAnswered(before, events[..k])
    requires forall i :: |before| <= i < |after| && after[i].outcome.Resolved? ==> IsAnswered(after[i], events[k])
    ensures AreAnswered(after, events[..k + 1])
  {
    hide IsAnswered;
    forall i | 0 <= i < |after| && after[i].outcome.Resolved?
      ensures IsAnsweredIn(after[i], events[..k + 1])
    {
      if i < |before| {
        assert after[i] == before[i];
        var j :| 0 <= j < k && IsAnswered(before[i], events[..k][j]);
        assert events[..k + 1][j] == events[..k][j];
      } else {
        assert events[..k + 1][k] == events[k];
      }
    }
  }

  lemma SettledByIds(settled: seq<Settlement>, calls: seq<Call>, replies: seq<Option<Reply>>)
    requires AreSettledBy(settled, calls, replies)
    ensures SettledIds(settled) == Ids(calls)
  {
    hide Answers;
    SettledIdsAre(settled, calls);
  }

  // ---------- exactly once ----------

  lemma {:induction false} IssuedOnce(next: nat, id: nat)
    ensures Issued(next)[id] == if 1 <= id < next then 1 else 0
  {
    if next > 1 {
      IssuedOnce(next - 1, id);
    }
  }

  /** No call is settled twice, and none is settled while it still waits. */
  lemma SettledAtMostOnce(pending: seq<Call>, flights: seq<Batch>, settled: seq<Settlement>, next: nat, id: nat)
    requires Accounted(pending, flights, settled, next)
    ensures multiset(SettledIds(settled))[id] <= 1
    ensures id in SettledIds(settled) ==> 1 <= id < next && id !in Ids(pending) && id !in FlightIds(flights)
  {
    IssuedOnce(next, id);
    var p, f, s := multiset(Ids(pending)), multiset(FlightIds(flights)), multiset(SettledIds(settled));
    assert (p + f + s)[id] == p[id] + f[id] + s[id];
    assert id in Ids(pending) ==> p[id] > 0;
    assert id in FlightIds(flights) ==> f[id] > 0;
    assert id in SettledIds(settled) ==> s[id] > 0;
    hide Ids, FlightIds, SettledIds, Issued;
  }

  /** Once nothing is pending or in flight, every call has been settled exactly once. */
  lemma AllSettled(settled: seq<Settlement>, next: nat, id: nat)
    requires Accounted([], [], settled, next) && 1 <= id < next
    ensures multiset(SettledIds(settled))[id] == 1
  {
    IssuedOnce(next, id);
    assert Ids([]) == [] && FlightIds([]) == [];
    assert multiset(SettledIds(settled)) == Issued(next);
  }
}
