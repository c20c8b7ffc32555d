/** The agent output of the runner: the record of events by probe is an object
    that the parser and the runner share, and normalising writes into it. */
module AgentOutput {
  import opened Util
  import opened Trace
  import opened Measure
  import opened EventRecorder

  class EventRecord {
    var lists: map<string, seq<Event>>

    constructor (lists: map<string, seq<Event>>)
      ensures this.lists == lists
    {
      this.lists := lists;
    }
  }

  datatype Output = Output(probeId: Option<string>, events: Option<seq<Event>>, record: EventRecord?)

  function ListAt(lists: map<string, seq<Event>>, id: string): seq<Event> {
    if id in lists then lists[id] else []
  }

  /** One call of normalisation, on the lists. */
  function Merge(lists: map<string, seq<Event>>, key: string, events: Option<seq<Event>>): map<string, seq<Event>> {
    if events.None? then lists else lists[key := ListAt(lists, key) + events.value]
  }

  ghost function ListsOf(o: Output): map<string, seq<Event>>
    reads o.record
  {
    if o.record == null then map[] else o.record.lists
  }

  ghost function Frame(o: Output): set<object> {
    if o.record == null then {} else {o.record}
  }

  /** Writes into the record of the output if there is one, into a new record
      otherwise. */
  method Normalize(o: Output, probeId: string) returns (byProbe: EventRecord)
    modifies Frame(o)
    ensures o.record != null ==> byProbe == o.record
    ensures o.record == null ==> fresh(byProbe)
    ensures byProbe.lists == Merge(old(ListsOf(o)), o.probeId.GetOr(probeId), o.events)
  {
    if o.record != null { byProbe := o.record; } else { byProbe := new EventRecord(map[]); }
    if o.events.Some? {
      var key := o.probeId.GetOr(probeId);
      byProbe.lists := byProbe.lists[key := ListAt(byProbe.lists, key) + o.events.value];
    }
  }

  /** `n` copies of a list. */
  function Times(events: seq<Event>, n: nat): seq<Event> {
    if n == 0 then [] else Times(events, n - 1) + events
  }

  /** After `n` calls on an output with both fields, the shared record holds the
      original list and `n` copies of the events. */
  method NormalizeTimes(o: Output, probeId: string, n: nat)
    requires o.record != null && o.events.Some?
    modifies o.record
    ensures var key := o.probeId.GetOr(probeId);
            && ListAt(o.record.lists, key) == ListAt(old(o.record.lists), key) + Times(o.events.value, n)
            && forall id :: id != key ==> ListAt(o.record.lists, id) == ListAt(old(o.record.lists), id)
  {
    ghost var key := o.probeId.GetOr(probeId);
    for i := 0 to n
      invariant ListAt(o.record.lists, key) == ListAt(old(o.record.lists), key) + Times(o.events.value, i)
      invariant forall id :: id != key ==> ListAt(o.record.lists, id) == ListAt(old(o.record.lists), id)
    {
      var _ := Normalize(o, probeId);
    }
  }

  /** The list of the target probe after one call and after a second one. */
  function FirstList(lists: map<string, seq<Event>>, o: Output, probeId: string): seq<Event> {
    ListAt(Merge(lists, o.probeId.GetOr(probeId), o.events), probeId)
  }

  function SecondList(lists: map<string, seq<Event>>, o: Output, probeId: string): seq<Event> {
    var key := o.probeId.GetOr(probeId);
    if o.record == null then FirstList(lists, o, probeId)
    else ListAt(Merge(Merge(lists, key, o.events), key, o.events), probeId)
  }

  /** The runner's second call sees what the parser validated exactly when one of
      the two fields is missing, the events are empty, or they go to another
      probe; otherwise every one of the events is there twice. */
  lemma SecondCallAgreesIff(lists: map<string, seq<Event>>, o: Output, probeId: string)
    ensures SecondList(lists, o, probeId) == FirstList(lists, o, probeId) <==>
            o.record == null || o.events.None? || o.events == Some([]) || o.probeId.GetOr(probeId) != probeId
    ensures o.record != null && o.events.Some? && o.probeId.GetOr(probeId) == probeId ==>
              SecondList(lists, o, probeId) == ListAt(lists, probeId) + o.events.value + o.events.value
  {
    if o.record != null && o.events.Some? && o.probeId.GetOr(probeId) == probeId {
      assert |SecondList(lists, o, probeId)| == |FirstList(lists, o, probeId)| + |o.events.value|;
    }
  }

  predicate Finalizes(e: Event) { Finalize(e).Ok? }

  /** The parser's checks on the list of the target probe. */
  ghost predicate Accepts(events: seq<Event>) {
    events != [] && Count(IsActionEvent, events) > 0 && Every(Finalizes, events)
  }

  /** The loop that finalises every event for its errors only. */
  method CheckEach(p: Event -> bool, events: seq<Event>) returns (ok: bool)
    ensures ok <==> Every(p, events)
  {
    for i := 0 to |events|
      invariant forall j :: 0 <= j < i ==> p(events[j])
    {
      if !p(events[i]) {
        assert events[i] in events;
        return false;
      }
    }
    ok := true;
  }

  method CheckEvents(events: seq<Event>) returns (ok: bool)
    ensures ok <==> Accepts(events)
  {
    if events == [] || Count(IsActionEvent, events) == 0 { return false; }
    ok := CheckEach(Finalizes, events);
  }

  /** Some event carries a command that the test for the harness's own verifier
      finds. */
  predicate RunsVerifier(isVerifier: string -> bool, events: seq<Event>) {
    exists e :: e in events && isVerifier(e.command.GetOr(""))
  }

  /** What the runner makes of the list it finds: finalised events, unless one of
      them runs the harness's verifier and that is not allowed. */
  function RunEvents(isVerifier: string -> bool, allowed: bool, events: seq<Event>): Outcome<seq<Event>> {
    match Traverse(Finalize, events)
    case Thrown(error) => Thrown(error)
    case Ok(made) => if !allowed && RunsVerifier(isVerifier, made) then Thrown(AgentRanVerifier) else Ok(made)
  }

  /** Parse, then run: the parser normalises and validates, the runner
      normalises the same output again, finalises what it finds and looks for
      commands of the harness. */
  method ParseThenRun(o: Output, probeId: string, isVerifier: string -> bool, allowed: bool)
    returns (r: Outcome<seq<Event>>)
    modifies Frame(o)
    ensures !Accepts(FirstList(old(ListsOf(o)), o, probeId)) ==> r == Thrown(InvalidEvent)
    ensures Accepts(FirstList(old(ListsOf(o)), o, probeId)) ==>
              && r == RunEvents(isVerifier, allowed, SecondList(old(ListsOf(o)), o, probeId))
              && (r.Ok? || r == Thrown(AgentRanVerifier))
  {
    var parsed := Normalize(o, probeId);
    var ok := CheckEvents(ListAt(parsed.lists, probeId));
    if !ok { return Thrown(InvalidEvent); }
    var again := Normalize(o, probeId);
    SecondListFinalizes(old(ListsOf(o)), o, probeId, Finalizes);
    EveryFinalizes(ListAt(again.lists, probeId));
    var made := Traverse(Finalize, ListAt(again.lists, probeId));
    if !allowed && RunsVerifier(isVerifier, made.value) { return Thrown(AgentRanVerifier); }
    r := made;
  }

  /** One event given in both ways to the target probe is there once for the
      parser and twice for the runner. */
  lemma BothFieldsDouble(record: EventRecord, e: Event, probeId: string)
    ensures var o := Output(None, Some([e]), record);
            FirstList(map[], o, probeId) == [e] && SecondList(map[], o, probeId) == [e, e]
  {
    assert [] + [e] == [e] && [e] + [e] == [e, e];
  }

  lemma EveryFinalizes(events: seq<Event>)
    requires Every(Finalizes, events)
    ensures Traverse(Finalize, events).Ok?
  {
    forall i | 0 <= i < |events| ensures Finalizes(events[i]) {
      assert events[i] in events;
    }
  }

  /** What the parser accepted is still accepted when it is there twice. */
  lemma SecondListFinalizes(lists: map<string, seq<Event>>, o: Output, probeId: string, p: Event -> bool)
    requires Every(p, FirstList(lists, o, probeId))
    ensures Every(p, SecondList(lists, o, probeId))
  {
    SecondCallAgreesIff(lists, o, probeId);
  }
}
