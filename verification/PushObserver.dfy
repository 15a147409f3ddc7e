/**
 The observer that feeds the service: a pass over the notifications is a run of the protocol - a Prime step for
 each event it silences, then a Queue step for each it reports - so what is proved of runs holds of passes.
 */
module PushObserver {
  import opened Basics
  import opened Recency
  import opened PushTables
  import opened PushProtocol
  import opened PushSafety
  import opened EventProcessor
  import Service = PushService

  /** The Prime steps of the silenced events, in order. */
  function PrimesOf(verdicts: seq<Verdict>, now: Time): seq<Action> {
    if verdicts == [] then []
    else
      var last := verdicts[|verdicts| - 1];
      PrimesOf(verdicts[..|verdicts| - 1], now) + if last.Silenced? then [Prime(last.key, now)] else []
  }

  /** The same service with more ids recorded. */
  ghost predicate OnlyRecorded(s: System, s': System, events: map<Key, Time>) {
    && s'.tables == s.tables.(events := events)
    && s'.available == s.available && s'.connected == s.connected && s'.epoch == s.epoch && s'.workers == s.workers
  }

  /** Silencing is a run: its steps record what the processor recorded and change nothing else. */
  lemma {:induction false} SilencingIsRun(s: System, verdicts: seq<Verdict>, now: Time) returns (s': System)
    requires s.available && InTime(s, now)
    ensures Leads(s, PrimesOf(verdicts, now), s') && s.clock <= s'.clock <= now
    ensures OnlyRecorded(s, s', RememberAll(s.tables.events, verdicts, now))
    decreases |verdicts|
  {
    if verdicts == [] {
      s' := s;
    } else {
      var most, last := verdicts[..|verdicts| - 1], verdicts[|verdicts| - 1];
      s' := SilencingIsRun(s, most, now);
      if last.Silenced? {
        LeadsOn(s, PrimesOf(most, now), s', Prime(last.key, now));
        s' := Step(s', Prime(last.key, now));
      } else {
        assert PrimesOf(most, now) + [] == PrimesOf(most, now);
      }
    }
  }

  /** Queueing changes neither the workers nor the source. */
  lemma QueueEffect(s: System, key: Key, payload: Payload, targets: seq<SubId>, now: Time)
    requires Enabled(s, Queue(key, payload, targets, now))
    ensures var s' := Step(s, Queue(key, payload, targets, now));
      s'.workers == s.workers && s'.available == s.available && s'.connected == s.connected && s'.clock == now
  {
  }

  class PushObserver {
    const service: Service.PushService
    const processor: EventProcessor
    const size: Notification -> nat      // the encoded size of an event's payload

    constructor (service: Service.PushService, processor: EventProcessor, size: Notification -> nat)
      requires service.Valid() && processor.store == service.store
      ensures this.service == service && this.processor == processor && this.size == size && Valid()
    {
      this.service, this.processor, this.size := service, processor, size;
    }

    ghost predicate Valid()
      reads service, service.store, service.inflight
    {
      service.Valid() && processor.store == service.store
    }

    function PayloadOf(n: Notification): Payload {
      Payload(Native, if n.sourceMs.Some? then n.sourceMs.value else 0, size(n))
    }

    /** The action queues this report at this time. */
    predicate Queues(a: Action, v: Verdict, time: Time) {
      v.Reported? && a.Queue? && a.key == v.key && a.payload == PayloadOf(v.notification) && a.now == time
    }

    /** One pass, with the clock reading at which each report is queued. */
    method NativePass(notifications: seq<Notification>, now: Time, prime: bool, times: nat -> Time)
      returns (ghost verdicts: seq<Verdict>, ghost queued: seq<Action>)
      requires Valid() && service.available && InTime(service.history, now)
      requires forall i, j :: i <= j ==> now <= times(i) <= times(j)
      requires forall i :: InTime(service.history, times(i))
      modifies service, service.store, processor`nativePrimed, processor`unknownPrimed
      ensures Valid()
      ensures var ns := if |notifications| <= 100 then notifications else notifications[..100];
        verdicts == JudgeAll(processor.digest, processor.startedAt, Still(old(processor.unknownPrimed), ns), ns, now,
                             prime || !old(processor.nativePrimed)).0
      ensures Leads(old(service.history), PrimesOf(verdicts, now) + queued, service.history)
      ensures |queued| == if old(service.connected) then |ReportsOf(verdicts)| else 0
      ensures forall i :: 0 <= i < |queued| ==> Queues(queued[i], ReportsOf(verdicts)[i], times(i))
    {
      ghost var h := service.history;
      var events;
      events, verdicts := Observe(notifications, now, prime);
      forall v | v in events ensures v.Reported? {
        ReportsAreVerdicts(verdicts, v);
      }
      queued := QueueAll(h, PrimesOf(verdicts, now), events, now, times);
    }

    /** The processor's part of a pass: what it silences is recorded in the shared store. */
    method Observe(notifications: seq<Notification>, now: Time, prime: bool) returns (events: seq<Verdict>, ghost verdicts: seq<Verdict>)
      requires Valid() && service.available && InTime(service.history, now)
      modifies service`history, service.store`events, processor`nativePrimed, processor`unknownPrimed
      ensures Valid() && events == ReportsOf(verdicts)
      ensures var ns := if |notifications| <= 100 then notifications else notifications[..100];
        verdicts == JudgeAll(processor.digest, processor.startedAt, Still(old(processor.unknownPrimed), ns), ns, now,
                             prime || !old(processor.nativePrimed)).0
      ensures Leads(old(service.history), PrimesOf(verdicts, now), service.history)
      ensures service.history.workers == old(service.history.workers) && service.history.clock <= now
    {
      hide JudgeAll, Leads, PrimesOf;
      ghost var ns := if |notifications| <= 100 then notifications else notifications[..100];
      verdicts := JudgeAll(processor.digest, processor.startedAt, Still(processor.unknownPrimed, ns), ns, now, prime || !processor.nativePrimed).0;
      events := processor.Native(notifications, now, prime);
      ghost var primed := SilencingIsRun(service.history, verdicts, now);
      service.history := primed;
    }

    method QueueAll(ghost h: System, ghost before: seq<Action>, events: seq<Verdict>, now: Time, times: nat -> Time)
      returns (ghost queued: seq<Action>)
      requires Valid() && service.available && Leads(h, before, service.history) && service.history.clock <= now
      requires forall v :: v in events ==> v.Reported?
      requires forall i, j :: i <= j ==> now <= times(i) <= times(j)
      requires forall i :: InTime(service.history, times(i))
      modifies service, service.store
      ensures Valid() && Leads(h, before + queued, service.history)
      ensures |queued| == if old(service.connected) then |events| else 0
      ensures forall i :: 0 <= i < |queued| ==> Queues(queued[i], events[i], times(i))
    {
      hide Step, Leads, IsTargets;
      queued := [];
      assert before + queued == before;
      for i := 0 to |events|
        invariant Valid() && service.available && service.connected == old(service.connected)
        invariant Leads(h, before + queued, service.history)
        invariant service.history.workers == old(service.history.workers)
        invariant forall j :: i <= j ==> service.history.clock <= times(j)
        invariant |queued| == if service.connected then i else 0
        invariant forall j :: 0 <= j < |queued| ==> Queues(queued[j], events[j], times(j))
        modifies service, service.store
      {
        ghost var s, next := service.history, service.connected;
        assert events[i] in events;
        var payload := PayloadOf(events[i].notification);
        service.Queue(events[i].key, payload, times(i));
        if next {
          ghost var targets :| IsTargets(s.tables, payload.kind, targets)
            && service.history == Step(s, Queue(events[i].key, payload, targets, times(i)));
          ghost var a := Queue(events[i].key, payload, targets, times(i));
          LeadsOn(h, before + queued, s, a);
          QueueEffect(s, events[i].key, payload, targets, times(i));
          assert before + queued + [a] == before + (queued + [a]);
          queued := queued + [a];
        }
      }
    }
  }
}
