/** The benchmark profile, flattened to dotted keys, compared with a baseline and
    judged by the regression gate. */
module Profile {
  import opened Util

  /** A JSON value; the entries of an object are in enumeration order. */
  datatype Json =
    | JNull | JBool(b: bool) | JNum(n: real) | JStr(s: string) | JArr(items: seq<Json>)
    | JObj(entries: Entries)

  datatype Entry = Entry(key: string, value: Json)

  type Entries = seq<Entry>

  function NextKey(prefix: string, key: string): string {
    if prefix != "" then prefix + "." + key else key
  }

  function Flatten(obj: Entries, prefix: string): Entries {
    if obj == [] then []
    else
      var key := NextKey(prefix, obj[0].key);
      (match obj[0].value
       case JObj(inner) => Flatten(inner, key)
       case leaf => [Entry(key, leaf)])
      + Flatten(obj[1..], prefix)
  }

  /** The leaves of one entry below a prefix. */
  function LeavesOf(e: Entry, prefix: string): Entries {
    match e.value
    case JObj(inner) => Flatten(inner, NextKey(prefix, e.key))
    case leaf => [Entry(NextKey(prefix, e.key), leaf)]
  }

  lemma FlattenStep(obj: Entries, prefix: string, i: nat, out: Entries)
    requires i < |obj|
    ensures out + Flatten(obj[i..], prefix) == out + LeavesOf(obj[i], prefix) + Flatten(obj[i + 1..], prefix)
  {
    assert obj[i..][0] == obj[i] && obj[i..][1..] == obj[i + 1..];
    assert Flatten(obj[i..], prefix) == LeavesOf(obj[i], prefix) + Flatten(obj[i + 1..], prefix);
  }

  /** The recursive loop that pushes leaves onto `out`. */
  method FlattenProfile(obj: Entries, prefix: string) returns (out: Entries)
    ensures out == Flatten(obj, prefix)
    decreases obj
  {
    out := [];
    ghost var all := Flatten(obj, prefix);
    for i := 0 to |obj|
      invariant out + Flatten(obj[i..], prefix) == all
    {
      FlattenStep(obj, prefix, i, out);
      var nextKey := NextKey(prefix, obj[i].key);
      var pushed: Entries;
      match obj[i].value {
        case JObj(inner) => pushed := FlattenProfile(inner, nextKey);
        case leaf => pushed := [Entry(nextKey, leaf)];
      }
      out := out + pushed;
    }
  }

  // ----- dotted keys -----

  predicate ValidKey(key: string) {
    key != "" && '.' !in key
  }

  /** Keys are distinct in every object, not empty and free of dots. */
  predicate ValidKeys(obj: Entries) {
    && (forall i :: 0 <= i < |obj| ==> ValidKey(obj[i].key))
    && (forall i, j :: 0 <= i < j < |obj| ==> obj[i].key != obj[j].key)
    && (forall i :: 0 <= i < |obj| && obj[i].value.JObj? ==> ValidKeys(obj[i].value.entries))
  }

  /** The value at a dotted key, one object per part of the key. */
  function Lookup(obj: Entries, key: string): Option<Json>
    decreases |key|
  {
    match CutAt('.', key)
    case None =>
      var e := Find(obj, key);
      if e.Some? && !e.value.JObj? then e else None
    case Some(cut) =>
      var e := Find(obj, cut.0);
      if e.Some? && e.value.JObj? then Lookup(e.value.entries, cut.1) else None
  }

  function Find(obj: Entries, key: string): (r: Option<Json>)
    ensures r.Some? ==> exists i :: 0 <= i < |obj| && obj[i] == Entry(key, r.value)
    ensures r.None? ==> forall i :: 0 <= i < |obj| ==> obj[i].key != key
  {
    if obj == [] then None
    else if obj[0].key == key then Some(obj[0].value)
    else Find(obj[1..], key)
  }

  function Shift(head: string, flat: Entries): (r: Entries)
    ensures |r| == |flat| && forall i :: 0 <= i < |r| ==> r[i] == Entry(head + flat[i].key, flat[i].value)
  {
    if flat == [] then [] else [Entry(head + flat[0].key, flat[0].value)] + Shift(head, flat[1..])
  }

  lemma ShiftAppend(head: string, a: Entries, b: Entries)
    ensures Shift(head, a + b) == Shift(head, a) + Shift(head, b)
  {
  }

  /** A longer prefix only lengthens the keys. */
  lemma {:induction false} LongerPrefix(obj: Entries, p: string, q: string)
    requires p != "" && q != ""
    ensures Flatten(obj, p + "." + q) == Shift(p + ".", Flatten(obj, q))
    decreases obj
  {
    if obj != [] {
      var key := NextKey(q, obj[0].key);
      assert NextKey(p + "." + q, obj[0].key) == p + "." + key;
      LongerPrefix(obj[1..], p, q);
      match obj[0].value {
        case JObj(inner) =>
          LongerPrefix(inner, p, key);
          ShiftAppend(p + ".", Flatten(inner, key), Flatten(obj[1..], q));
        case leaf =>
          ShiftAppend(p + ".", [Entry(key, leaf)], Flatten(obj[1..], q));
      }
    }
  }

  lemma {:induction false} FirstPrefix(obj: Entries, p: string)
    requires p != "" && forall i :: 0 <= i < |obj| ==> obj[i].key != ""
    ensures Flatten(obj, p) == Shift(p + ".", Flatten(obj, ""))
  {
    if obj != [] {
      var key := obj[0].key;
      FirstPrefix(obj[1..], p);
      match obj[0].value {
        case JObj(inner) =>
          LongerPrefix(inner, p, key);
          ShiftAppend(p + ".", Flatten(inner, key), Flatten(obj[1..], ""));
        case leaf =>
          ShiftAppend(p + ".", [Entry(key, leaf)], Flatten(obj[1..], ""));
      }
    }
  }

  /** The part of a dotted key before the first dot. */
  function HeadOf(key: string): string {
    match CutAt('.', key)
    case None => key
    case Some(cut) => cut.0
  }

  function EntryLeaves(e: Entry): Entries {
    LeavesOf(e, "")
  }

  /** The leaves of one entry: its key followed by the keys inside it. */
  lemma EntryLeavesAre(e: Entry)
    requires ValidKey(e.key) && (e.value.JObj? ==> ValidKeys(e.value.entries))
    ensures forall i :: 0 <= i < |EntryLeaves(e)| ==> HeadOf(EntryLeaves(e)[i].key) == e.key
    ensures e.value.JObj? ==> EntryLeaves(e) == Shift(e.key + ".", Flatten(e.value.entries, ""))
  {
    if e.value.JObj? {
      FirstPrefix(e.value.entries, e.key);
      var inside := Flatten(e.value.entries, "");
      forall i | 0 <= i < |inside| ensures HeadOf(EntryLeaves(e)[i].key) == e.key {
        assert e.key + "." + inside[i].key == e.key + ['.'] + inside[i].key;
        CutFinds('.', e.key, inside[i].key);
      }
    } else {
      CutMisses('.', e.key);
    }
  }

  lemma TailIsValid(obj: Entries)
    requires obj != [] && ValidKeys(obj)
    ensures ValidKeys(obj[1..])
  {
  }

  predicate DistinctKeys(flat: Entries) {
    forall i, j :: 0 <= i < j < |flat| ==> flat[i].key != flat[j].key
  }

  lemma {:induction false} HeadsAreKeys(obj: Entries, i: nat)
    requires ValidKeys(obj) && i < |Flatten(obj, "")|
    ensures exists k :: 0 <= k < |obj| && obj[k].key == HeadOf(Flatten(obj, "")[i].key)
  {
    var first := EntryLeaves(obj[0]);
    assert Flatten(obj, "") == first + Flatten(obj[1..], "");
    EntryLeavesAre(obj[0]);
    if i >= |first| {
      TailIsValid(obj);
      HeadsAreKeys(obj[1..], i - |first|);
    }
  }

  /** No two leaves of a profile get the same dotted key. */
  lemma {:induction false} FlattenIsInjective(obj: Entries)
    requires ValidKeys(obj)
    ensures DistinctKeys(Flatten(obj, ""))
    decreases obj
  {
    if obj != [] {
      var first, rest := EntryLeaves(obj[0]), Flatten(obj[1..], "");
      assert Flatten(obj, "") == first + rest;
      EntryLeavesAre(obj[0]);
      TailIsValid(obj);
      FlattenIsInjective(obj[1..]);
      if obj[0].value.JObj? {
        FlattenIsInjective(obj[0].value.entries);
        ShiftKeepsDistinct(obj[0].key + ".", Flatten(obj[0].value.entries, ""));
      }
      forall i, j | 0 <= i < |first| && 0 <= j < |rest| ensures first[i].key != rest[j].key {
        HeadsAreKeys(obj[1..], j);
      }
    }
  }

  lemma ShiftKeepsDistinct(head: string, flat: Entries)
    requires DistinctKeys(flat)
    ensures DistinctKeys(Shift(head, flat))
  {
    forall i, j | 0 <= i < j < |flat| ensures head + flat[i].key != head + flat[j].key {
      assert flat[i].key == (head + flat[i].key)[|head|..];
      assert flat[j].key == (head + flat[j].key)[|head|..];
    }
  }

  /** Every flattened key looks up its own leaf. */
  lemma {:induction false} FlattenedKeyLooksUp(obj: Entries, i: nat)
    requires ValidKeys(obj) && i < |Flatten(obj, "")|
    ensures Lookup(obj, Flatten(obj, "")[i].key) == Some(Flatten(obj, "")[i].value)
    decreases obj
  {
    var first, rest := EntryLeaves(obj[0]), Flatten(obj[1..], "");
    var leaf := Flatten(obj, "")[i];
    assert Flatten(obj, "") == first + rest;
    EntryLeavesAre(obj[0]);
    if i >= |first| {
      TailIsValid(obj);
      HeadsAreKeys(obj[1..], i - |first|);
      FlattenedKeyLooksUp(obj[1..], i - |first|);
      LookupSkips(obj, leaf.key);
    } else if obj[0].value.JObj? {
      var inner := obj[0].value.entries;
      FlattenedKeyLooksUp(inner, i);
      var inside := Flatten(inner, "")[i];
      assert leaf.key == obj[0].key + ['.'] + inside.key;
      CutFinds('.', obj[0].key, inside.key);
    } else {
      CutMisses('.', obj[0].key);
    }
  }

  lemma LookupSkips(obj: Entries, key: string)
    requires obj != [] && HeadOf(key) != obj[0].key
    ensures Lookup(obj, key) == Lookup(obj[1..], key)
  {
  }

  // ----- comparison with a baseline -----

  datatype Scenario = Scenario(id: string, status: string, score: real)

  datatype Suite = Suite(score: real, profile: Entries, scenarios: seq<Scenario>)

  /** A baseline read from a file may lack its summary or its profile. */
  datatype BaselineSuite = BaselineSuite(score: Option<real>, profile: Option<Entries>, scenarios: seq<Scenario>)

  /** The last entry with a key, as a map built from the list holds it. */
  function MapGet(flat: Entries, key: string): (r: Option<Json>)
    ensures r.Some? ==> exists i :: 0 <= i < |flat| && flat[i] == Entry(key, r.value)
    ensures r.None? ==> forall i :: 0 <= i < |flat| ==> flat[i].key != key
  {
    if flat == [] then None
    else if flat[|flat| - 1].key == key then Some(flat[|flat| - 1].value)
    else MapGet(flat[..|flat| - 1], key)
  }

  function FindScenario(scenarios: seq<Scenario>, id: string): (r: Option<Scenario>)
    ensures r.Some? ==> r.value in scenarios && r.value.id == id
    ensures r.None? ==> forall s :: s in scenarios ==> s.id != id
  {
    if scenarios == [] then None
    else if scenarios[|scenarios| - 1].id == id then Some(scenarios[|scenarios| - 1])
    else FindScenario(scenarios[..|scenarios| - 1], id)
  }

  /** The keys whose value prints differently in the baseline. */
  function ChangedKeys(show: Json -> string, current: Entries, baseline: Entries): seq<string> {
    if current == [] then []
    else
      var before := MapGet(baseline, current[0].key);
      (if before == None || show(before.value) != show(current[0].value) then [current[0].key] else [])
      + ChangedKeys(show, current[1..], baseline)
  }

  function StatusChanges(scenarios: seq<Scenario>, baseline: seq<Scenario>): seq<string> {
    if scenarios == [] then []
    else
      var prior := FindScenario(baseline, scenarios[0].id);
      (if prior.Some? && prior.value.status != scenarios[0].status then [scenarios[0].id] else [])
      + StatusChanges(scenarios[1..], baseline)
  }

  function ScoreDelta(s: Scenario, baseline: seq<Scenario>): Option<real> {
    match FindScenario(baseline, s.id)
    case None => None
    case Some(prior) => Some(s.score - prior.score)
  }

  datatype Comparison = Comparison(
    suiteDelta: Option<real>,
    statusChanges: seq<string>,
    changed: seq<string>,
    hard: seq<string>,
    soft: seq<string>,
    scenarioDeltas: seq<(string, Option<real>)>)

  function Deltas(scenarios: seq<Scenario>, baseline: seq<Scenario>): (r: seq<(string, Option<real>)>)
    ensures |r| == |scenarios|
    ensures forall i :: 0 <= i < |r| ==> r[i] == (scenarios[i].id, ScoreDelta(scenarios[i], baseline))
  {
    if scenarios == [] then []
    else [(scenarios[0].id, ScoreDelta(scenarios[0], baseline))] + Deltas(scenarios[1..], baseline)
  }

  /** `isHard` is the policy level of a key. */
  function Compare(show: Json -> string, isHard: string -> bool, result: Suite, baseline: BaselineSuite): Comparison {
    var changed :=
      if baseline.profile.None? then []
      else ChangedKeys(show, Flatten(result.profile, ""), Flatten(baseline.profile.value, ""));
    Comparison(
      if baseline.score.None? then None else Some(result.score - baseline.score.value),
      StatusChanges(result.scenarios, baseline.scenarios),
      changed,
      Filter((k: string) => isHard(k), changed),
      Filter((k: string) => !isHard(k), changed),
      Deltas(result.scenarios, baseline.scenarios))
  }

  lemma {:induction false} FilterSplits(p: string -> bool, q: string -> bool, s: seq<string>)
    requires forall k :: p(k) != q(k)
    ensures multiset(Filter(p, s)) + multiset(Filter(q, s)) == multiset(s)
  {
    if s != [] {
      FilterSplits(p, q, s[1..]);
      FilterStep(p, s);
      FilterStep(q, s);
      ConsMultiset(s);
      AddOnEitherSide(s[0], multiset(Filter(p, s[1..])), multiset(Filter(q, s[1..])));
    }
  }

  lemma FilterStep(p: string -> bool, s: seq<string>)
    requires s != []
    ensures multiset(Filter(p, s))
            == if p(s[0]) then multiset{s[0]} + multiset(Filter(p, s[1..])) else multiset(Filter(p, s[1..]))
  {
    var rest := Filter(p, s[1..]);
    if p(s[0]) {
      ConsMultiset([s[0]] + rest);
      assert ([s[0]] + rest)[1..] == rest;
    } else {
      assert [] + rest == rest;
    }
  }

  lemma ConsMultiset(s: seq<string>)
    requires s != []
    ensures multiset(s) == multiset{s[0]} + multiset(s[1..])
  {
    assert s == [s[0]] + s[1..];
  }

  lemma AddOnEitherSide(x: string, a: multiset<string>, b: multiset<string>)
    ensures (multiset{x} + a) + b == multiset{x} + (a + b)
    ensures a + (multiset{x} + b) == multiset{x} + (a + b)
  {
  }

  /** The hard and the soft list share out the changed keys, repeated ones
      included. */
  lemma HardAndSoftPartition(show: Json -> string, isHard: string -> bool, result: Suite, baseline: BaselineSuite)
    ensures var c := Compare(show, isHard, result, baseline);
            && multiset(c.hard) + multiset(c.soft) == multiset(c.changed)
            && (forall k :: k in c.hard ==> isHard(k)) && (forall k :: k in c.soft ==> !isHard(k))
  {
    var c := Compare(show, isHard, result, baseline);
    FilterSplits((k: string) => isHard(k), (k: string) => !isHard(k), c.changed);
  }

  // ----- the regression gate -----

  datatype Options = Options(
    failOnStatus: bool,
    failOnProfile: bool,
    failOnHardProfile: bool,
    maxSuiteDrop: Option<real>,
    maxScenarioDrop: Option<real>)

  datatype Reason =
    | StatusRegression(ids: seq<string>)
    | ProfileDrift(keys: seq<string>)
    | HardProfileDrift(keys: seq<string>)
    | SuiteDrop(drop: real)
    | ScenarioDrop(id: string, drop: real)

  predicate Drops(delta: Option<real>, limit: real) {
    delta.Some? && delta.value < 0.0 && -delta.value > limit
  }

  predicate Requested(o: Options) {
    o.failOnStatus || o.failOnProfile || o.failOnHardProfile || o.maxSuiteDrop.Some? || o.maxScenarioDrop.Some?
  }

  /** When the gate finds nothing to report. */
  predicate NothingRegressed(c: Comparison, o: Options) {
    && (o.failOnStatus ==> c.statusChanges == [])
    && (o.failOnProfile ==> c.changed == [])
    && (o.failOnHardProfile ==> c.hard == [])
    && (o.maxSuiteDrop.Some? ==> !Drops(c.suiteDelta, o.maxSuiteDrop.value))
    && (o.maxScenarioDrop.Some? ==>
          forall i :: 0 <= i < |c.scenarioDeltas| ==> !Drops(c.scenarioDeltas[i].1, o.maxScenarioDrop.value))
  }

  function ReasonIf(found: bool, reason: Reason): seq<Reason> {
    if found then [reason] else []
  }

  function ScenarioReasons(deltas: seq<(string, Option<real>)>, limit: real): seq<Reason> {
    if deltas == [] then []
    else
      var (id, delta) := deltas[|deltas| - 1];
      ScenarioReasons(deltas[..|deltas| - 1], limit)
      + (if Drops(delta, limit) then [ScenarioDrop(id, -delta.value)] else [])
  }

  /** The reasons of the first four checks. */
  function SuiteReasons(c: Comparison, o: Options): seq<Reason> {
    ReasonIf(o.failOnStatus && c.statusChanges != [], StatusRegression(c.statusChanges))
    + ReasonIf(o.failOnProfile && c.changed != [], ProfileDrift(c.changed))
    + ReasonIf(o.failOnHardProfile && c.hard != [], HardProfileDrift(c.hard))
    + (if o.maxSuiteDrop.Some? && Drops(c.suiteDelta, o.maxSuiteDrop.value) then [SuiteDrop(-c.suiteDelta.value)]
       else [])
  }

  /** The reasons in the order they are reported. */
  function Reasons(c: Comparison, o: Options): seq<Reason> {
    SuiteReasons(c, o)
    + (if o.maxScenarioDrop.Some? then ScenarioReasons(c.scenarioDeltas, o.maxScenarioDrop.value) else [])
  }

  /** The four checks that push at most one reason. */
  method PushSuiteReasons(c: Comparison, o: Options) returns (reasons: seq<Reason>)
    ensures reasons == SuiteReasons(c, o)
  {
    reasons := [];
    if o.failOnStatus && |c.statusChanges| > 0 { reasons := reasons + [StatusRegression(c.statusChanges)]; }
    if o.failOnProfile && |c.changed| > 0 { reasons := reasons + [ProfileDrift(c.changed)]; }
    assert reasons == ReasonIf(o.failOnStatus && c.statusChanges != [], StatusRegression(c.statusChanges))
                      + ReasonIf(o.failOnProfile && c.changed != [], ProfileDrift(c.changed));
    if o.failOnHardProfile && |c.hard| > 0 { reasons := reasons + [HardProfileDrift(c.hard)]; }
    if o.maxSuiteDrop.Some? && Drops(c.suiteDelta, o.maxSuiteDrop.value) {
      reasons := reasons + [SuiteDrop(-c.suiteDelta.value)];
    }
  }

  /** Reasons are pushed one check after the other, the last in a loop over the
      scenarios; there is no gate when nothing was requested. */
  method EvaluateRegressionGate(c: Comparison, o: Options) returns (gate: Option<seq<Reason>>)
    ensures gate == if Requested(o) then Some(Reasons(c, o)) else None
  {
    if !Requested(o) { return None; }
    var reasons := PushSuiteReasons(c, o);
    if o.maxScenarioDrop.Some? {
      var limit := o.maxScenarioDrop.value;
      for i := 0 to |c.scenarioDeltas|
        invariant reasons == SuiteReasons(c, o) + ScenarioReasons(c.scenarioDeltas[..i], limit)
      {
        var (id, delta) := c.scenarioDeltas[i];
        assert c.scenarioDeltas[..i + 1][..i] == c.scenarioDeltas[..i];
        if Drops(delta, limit) {
          reasons := reasons + [ScenarioDrop(id, -delta.value)];
        }
      }
      assert c.scenarioDeltas[..|c.scenarioDeltas|] == c.scenarioDeltas;
    }
    assert SuiteReasons(c, o) + [] == SuiteReasons(c, o);
    gate := Some(reasons);
  }

  lemma {:induction false} NoScenarioReasonsIff(deltas: seq<(string, Option<real>)>, limit: real)
    ensures ScenarioReasons(deltas, limit) == [] <==> forall i :: 0 <= i < |deltas| ==> !Drops(deltas[i].1, limit)
  {
    if deltas != [] {
      var init, last := deltas[..|deltas| - 1], |deltas| - 1;
      NoScenarioReasonsIff(init, limit);
      assert forall i :: 0 <= i < last ==> deltas[i] == init[i];
      assert ScenarioReasons(deltas, limit) == [] <==>
          ScenarioReasons(init, limit) == [] && !Drops(deltas[last].1, limit);
    }
  }

  /** The gate is `ok` exactly when nothing that was asked for regressed. */
  lemma GateOkIff(c: Comparison, o: Options)
    ensures Reasons(c, o) == [] <==> NothingRegressed(c, o)
  {
    if o.maxScenarioDrop.Some? { NoScenarioReasonsIff(c.scenarioDeltas, o.maxScenarioDrop.value); }
  }

  // ----- a result compared with itself -----

  function AsBaseline(result: Suite): BaselineSuite {
    BaselineSuite(Some(result.score), Some(result.profile), result.scenarios)
  }

  /** Two leaves with this dotted key print differently. */
  predicate Conflicting(show: Json -> string, flat: Entries, key: string) {
    exists i, j :: 0 <= i < |flat| && 0 <= j < |flat| && flat[i].key == key && flat[j].key == key
                   && show(flat[i].value) != show(flat[j].value)
  }

  /** No key of this kind is conflicting. */
  ghost predicate NoConflict(show: Json -> string, flat: Entries, kind: string -> bool) {
    forall k :: kind(k) ==> !Conflicting(show, flat, k)
  }

  predicate AnyKey(k: string) { true }

  lemma {:induction false} ChangedKeyIff(show: Json -> string, current: Entries, baseline: Entries, key: string)
    ensures key in ChangedKeys(show, current, baseline) <==>
            exists i :: 0 <= i < |current| && current[i].key == key
                        && (MapGet(baseline, key) == None
                            || show(MapGet(baseline, key).value) != show(current[i].value))
  {
    if current != [] {
      ChangedKeyIff(show, current[1..], baseline, key);
      assert forall i :: 1 <= i < |current| ==> current[i] == current[1..][i - 1];
    }
  }

  /** A profile drifts from itself exactly at the keys of conflicting leaves. */
  lemma SelfDriftIff(show: Json -> string, flat: Entries, key: string)
    ensures key in ChangedKeys(show, flat, flat) <==> Conflicting(show, flat, key)
  {
    ChangedKeyIff(show, flat, flat, key);
    var found := MapGet(flat, key);
    if found.Some? {
      var k :| 0 <= k < |flat| && flat[k] == Entry(key, found.value);
      if Conflicting(show, flat, key) {
        var i, j :| 0 <= i < |flat| && 0 <= j < |flat| && flat[i].key == key && flat[j].key == key
                    && show(flat[i].value) != show(flat[j].value);
        assert show(found.value) != show(flat[i].value) || show(found.value) != show(flat[j].value);
      }
    }
  }

  lemma FilterEmptyIff(p: string -> bool, s: seq<string>)
    ensures Filter(p, s) == [] <==> forall k :: k in s ==> !p(k)
  {
    if Filter(p, s) != [] {
      assert Filter(p, s)[0] in Filter(p, s);
    }
  }

  lemma EmptyIff(s: seq<string>)
    ensures s == [] <==> forall k :: k !in s
  {
    if s != [] { assert s[0] in s; }
  }

  lemma NoDriftIff(show: Json -> string, isHard: string -> bool, flat: Entries)
    ensures ChangedKeys(show, flat, flat) == [] <==> NoConflict(show, flat, AnyKey)
    ensures Filter((k: string) => isHard(k), ChangedKeys(show, flat, flat)) == [] <==> NoConflict(show, flat, isHard)
  {
    var changed := ChangedKeys(show, flat, flat);
    forall k ensures k in changed <==> Conflicting(show, flat, k) {
      SelfDriftIff(show, flat, k);
    }
    EmptyIff(changed);
    FilterEmptyIff((k: string) => isHard(k), changed);
  }

  /** Scenarios with one id have one status. */
  predicate SameStatuses(scenarios: seq<Scenario>) {
    forall i, j :: 0 <= i < |scenarios| && 0 <= j < |scenarios| && scenarios[i].id == scenarios[j].id ==>
                     scenarios[i].status == scenarios[j].status
  }

  /** No scenario has another one behind it, the last with its id, that scores
      higher by more than the limit. */
  ghost predicate NoLaterScoreAbove(scenarios: seq<Scenario>, limit: real) {
    forall i, j | 0 <= i < |scenarios| && IsLast(scenarios, j) && scenarios[i].id == scenarios[j].id ::
      scenarios[j].score <= scenarios[i].score || scenarios[j].score - scenarios[i].score <= limit
  }

  predicate IsLast(scenarios: seq<Scenario>, j: int) {
    0 <= j < |scenarios| && forall k :: j < k < |scenarios| ==> scenarios[k].id != scenarios[j].id
  }

  lemma {:induction false} StatusChangesNilIff(scenarios: seq<Scenario>, baseline: seq<Scenario>)
    ensures StatusChanges(scenarios, baseline) == [] <==>
            forall i :: 0 <= i < |scenarios| ==>
                          var prior := FindScenario(baseline, scenarios[i].id);
                          prior.Some? ==> prior.value.status == scenarios[i].status
  {
    if scenarios != [] {
      StatusChangesNilIff(scenarios[1..], baseline);
      assert forall i :: 1 <= i < |scenarios| ==> scenarios[i] == scenarios[1..][i - 1];
    }
  }

  lemma {:induction false} FindsLast(scenarios: seq<Scenario>, id: string)
    ensures var found := FindScenario(scenarios, id);
            found.Some? ==> exists j :: IsLast(scenarios, j) && scenarios[j] == found.value
  {
    if scenarios != [] {
      var init, last := scenarios[..|scenarios| - 1], |scenarios| - 1;
      if scenarios[last].id == id {
        assert IsLast(scenarios, last);
      } else {
        FindsLast(init, id);
        if FindScenario(init, id).Some? {
          var j :| IsLast(init, j) && init[j] == FindScenario(init, id).value;
          assert IsLast(scenarios, j) && scenarios[j] == init[j];
        }
      }
    }
  }

  lemma LastIsUnique(scenarios: seq<Scenario>, j: int, k: int)
    requires IsLast(scenarios, j) && IsLast(scenarios, k) && scenarios[j].id == scenarios[k].id
    ensures j == k
  {
  }

  lemma SelfStatusIff(scenarios: seq<Scenario>)
    ensures StatusChanges(scenarios, scenarios) == [] <==> SameStatuses(scenarios)
  {
    StatusChangesNilIff(scenarios, scenarios);
    forall i | 0 <= i < |scenarios| ensures FindScenario(scenarios, scenarios[i].id).Some? {
      assert scenarios[i] in scenarios;
    }
    if SameStatuses(scenarios) {
      forall i | 0 <= i < |scenarios|
        ensures FindScenario(scenarios, scenarios[i].id).value.status == scenarios[i].status
      {
        var found := FindScenario(scenarios, scenarios[i].id).value;
        var j :| 0 <= j < |scenarios| && scenarios[j] == found;
      }
    }
  }

  /** The scenario drops of a result against itself. */
  lemma SelfDropsIff(scenarios: seq<Scenario>, limit: real)
    ensures (forall i :: 0 <= i < |scenarios| ==> !Drops(ScoreDelta(scenarios[i], scenarios), limit)) <==>
            NoLaterScoreAbove(scenarios, limit)
  {
    forall i | 0 <= i < |scenarios|
      ensures !Drops(ScoreDelta(scenarios[i], scenarios), limit) <==>
              forall j | IsLast(scenarios, j) && scenarios[i].id == scenarios[j].id ::
                scenarios[j].score <= scenarios[i].score || scenarios[j].score - scenarios[i].score <= limit
    {
      SelfDropIff(scenarios, i, limit);
    }
  }

  lemma SelfDropIff(scenarios: seq<Scenario>, i: nat, limit: real)
    requires i < |scenarios|
    ensures !Drops(ScoreDelta(scenarios[i], scenarios), limit) <==>
            forall j | IsLast(scenarios, j) && scenarios[i].id == scenarios[j].id ::
              scenarios[j].score <= scenarios[i].score || scenarios[j].score - scenarios[i].score <= limit
  {
    var id := scenarios[i].id;
    assert scenarios[i] in scenarios;
    FindsLast(scenarios, id);
    var j :| IsLast(scenarios, j) && scenarios[j] == FindScenario(scenarios, id).value;
    forall k | IsLast(scenarios, k) && scenarios[k].id == id ensures k == j {
      LastIsUnique(scenarios, j, k);
    }
  }

  predicate SameScores(scenarios: seq<Scenario>) {
    forall i, j :: 0 <= i < |scenarios| && 0 <= j < |scenarios| && scenarios[i].id == scenarios[j].id ==>
                     scenarios[i].score == scenarios[j].score
  }

  /** Every scenario is in the baseline with the score it has. */
  predicate NoScoreChange(scenarios: seq<Scenario>, baseline: seq<Scenario>) {
    forall i :: 0 <= i < |scenarios| ==> ScoreDelta(scenarios[i], baseline) == Some(0.0)
  }

  lemma SelfDelta(scenarios: seq<Scenario>, i: nat) returns (j: nat)
    requires i < |scenarios|
    ensures j < |scenarios| && scenarios[j].id == scenarios[i].id
    ensures FindScenario(scenarios, scenarios[i].id) == Some(scenarios[j])
    ensures ScoreDelta(scenarios[i], scenarios) == Some(scenarios[i].score - scenarios[j].score)
  {
    assert scenarios[i] in scenarios;
    var found := FindScenario(scenarios, scenarios[i].id).value;
    j :| 0 <= j < |scenarios| && scenarios[j] == found;
  }

  lemma UnchangedScoresAgree(scenarios: seq<Scenario>, i: nat, j: nat)
    requires NoScoreChange(scenarios, scenarios)
    requires i < |scenarios| && j < |scenarios| && scenarios[i].id == scenarios[j].id
    ensures scenarios[i].score == scenarios[j].score
  {
    var k := SelfDelta(scenarios, i);
    var l := SelfDelta(scenarios, j);
  }

  lemma SelfScoreIff(scenarios: seq<Scenario>)
    ensures NoScoreChange(scenarios, scenarios) <==> SameScores(scenarios)
  {
    if NoScoreChange(scenarios, scenarios) {
      forall i, j | 0 <= i < |scenarios| && 0 <= j < |scenarios| && scenarios[i].id == scenarios[j].id
        ensures scenarios[i].score == scenarios[j].score
      {
        UnchangedScoresAgree(scenarios, i, j);
      }
    }
    if SameScores(scenarios) {
      forall i | 0 <= i < |scenarios| ensures ScoreDelta(scenarios[i], scenarios) == Some(0.0) {
        var j := SelfDelta(scenarios, i);
      }
    }
  }

  /** A result compared with itself shows no change at all exactly when its
      leaves with one key print alike and its scenarios with one id agree in
      status and score. */
  lemma SelfComparisonIsCleanIff(show: Json -> string, isHard: string -> bool, result: Suite)
    ensures var c := Compare(show, isHard, result, AsBaseline(result));
            && c.suiteDelta == Some(0.0)
            && (c.changed == [] <==> NoConflict(show, Flatten(result.profile, ""), AnyKey))
            && (c.statusChanges == [] <==> SameStatuses(result.scenarios))
            && (AllZero(c.scenarioDeltas) <==> SameScores(result.scenarios))
  {
    NoDriftIff(show, isHard, Flatten(result.profile, ""));
    SelfStatusIff(result.scenarios);
    SelfScoreIff(result.scenarios);
    AllZeroIff(result.scenarios, result.scenarios);
  }

  predicate AllZero(deltas: seq<(string, Option<real>)>) {
    forall i :: 0 <= i < |deltas| ==> deltas[i].1 == Some(0.0)
  }

  lemma AllZeroIff(scenarios: seq<Scenario>, baseline: seq<Scenario>)
    ensures AllZero(Deltas(scenarios, baseline)) <==> NoScoreChange(scenarios, baseline)
  {
    var deltas := Deltas(scenarios, baseline);
    assert forall i :: 0 <= i < |scenarios| ==> deltas[i].1 == ScoreDelta(scenarios[i], baseline);
  }

  /** What a gate asks of a result that is compared with itself, in terms of the
      result alone. */
  ghost predicate SelfConsistent(show: Json -> string, isHard: string -> bool, result: Suite, o: Options) {
    var flat := Flatten(result.profile, "");
    && (o.failOnStatus ==> SameStatuses(result.scenarios))
    && (o.failOnProfile ==> NoConflict(show, flat, AnyKey))
    && (o.failOnHardProfile ==> NoConflict(show, flat, isHard))
    && (o.maxScenarioDrop.Some? ==> NoLaterScoreAbove(result.scenarios, o.maxScenarioDrop.value))
  }

  /** A result compared with itself passes the requested gate exactly when its
      leaves with one key print alike and its scenarios with one id agree. */
  lemma SelfComparisonPassesIff(show: Json -> string, isHard: string -> bool, result: Suite, o: Options)
    ensures Reasons(Compare(show, isHard, result, AsBaseline(result)), o) == [] <==>
            SelfConsistent(show, isHard, result, o)
  {
    var c := Compare(show, isHard, result, AsBaseline(result));
    GateOkIff(c, o);
    NoDriftIff(show, isHard, Flatten(result.profile, ""));
    SelfStatusIff(result.scenarios);
    if o.maxScenarioDrop.Some? {
      SelfDropsIff(result.scenarios, o.maxScenarioDrop.value);
    }
  }

  predicate DistinctIds(scenarios: seq<Scenario>) {
    forall i, j :: 0 <= i < j < |scenarios| ==> scenarios[i].id != scenarios[j].id
  }

  /** Dot-free keys and distinct scenario ids, which the program's own results
      have, meet the condition of every gate. */
  lemma ValidResultsAreConsistent(show: Json -> string, isHard: string -> bool, result: Suite, o: Options)
    requires ValidKeys(result.profile) && DistinctIds(result.scenarios)
    ensures SelfConsistent(show, isHard, result, o)
    ensures NoConflict(show, Flatten(result.profile, ""), AnyKey)
    ensures SameStatuses(result.scenarios) && SameScores(result.scenarios)
  {
    FlattenIsInjective(result.profile);
  }

  /** With a dotted key the comparison of a profile with itself can report drift. */
  lemma DottedKeyDrifts(show: Json -> string)
    requires show(JNum(1.0)) != show(JNum(2.0))
    ensures var profile := [Entry("a", JObj([Entry("b", JNum(1.0))])), Entry("a.b", JNum(2.0))];
            "a.b" in ChangedKeys(show, Flatten(profile, ""), Flatten(profile, ""))
  {
    var profile: Entries := [Entry("a", JObj([Entry("b", JNum(1.0))])), Entry("a.b", JNum(2.0))];
    var flat: Entries := [Entry("a.b", JNum(1.0)), Entry("a.b", JNum(2.0))];
    assert profile[1..] == [Entry("a.b", JNum(2.0))] && profile[1..][1..] == [];
    assert [Entry("b", JNum(1.0))][1..] == [];
    assert NextKey("a", "b") == "a.b";
    assert Flatten([Entry("b", JNum(1.0))], "a") == [Entry("a.b", JNum(1.0))];
    assert Flatten(profile, "") == flat;
    assert flat[0].key == "a.b" && flat[1].key == "a.b";
    SelfDriftIff(show, flat, "a.b");
  }
}
