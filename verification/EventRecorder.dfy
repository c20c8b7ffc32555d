/** The event recorder: drafts are validated and finalised, then appended to the
    events file under their probe. */
module EventRecorder {
  import opened Util
  import opened Trace

  datatype DraftError =
    | KindRequired | PayloadRequired | ToolCallNeedsCommand | ActionNeedsText | BadTimestamp | BadTokens

  predicate NonBlank(s: Option<string>) {
    s.Some? && Trim(s.value) != ""
  }

  predicate HasPayload(e: Event) {
    NonBlank(e.text) || NonBlank(e.command) || e.Touched() != []
  }

  function ErrorIf(bad: bool, error: DraftError): seq<DraftError> {
    if bad then [error] else []
  }

  function Negative(n: Option<real>): bool {
    n.Some? && n.value < 0.0
  }

  function DraftErrors(e: Event): seq<DraftError> {
    ErrorIf(e.kind == Unlisted(""), KindRequired)
    + ErrorIf(!HasPayload(e), PayloadRequired)
    + ErrorIf(e.kind == ToolCall && !NonBlank(e.command), ToolCallNeedsCommand)
    + ErrorIf(e.kind == Action && !NonBlank(e.text) && !NonBlank(e.command), ActionNeedsText)
    + ErrorIf(Negative(e.timestampMs), BadTimestamp)
    + ErrorIf(Negative(e.tokens), BadTokens)
  }

  /** A draft with a kind and some payload, a command where a tool is called, a
      text or a command where something is done, and no negative number. */
  predicate ValidDraft(e: Event) {
    && e.kind != Unlisted("") && HasPayload(e)
    && (e.kind == ToolCall ==> NonBlank(e.command))
    && (e.kind == Action ==> NonBlank(e.text) || NonBlank(e.command))
    && !Negative(e.timestampMs) && !Negative(e.tokens)
  }

  lemma NoErrorsIff(e: Event)
    ensures DraftErrors(e) == [] <==> ValidDraft(e)
  {
    var d := DraftErrors(e);
    if e.kind == Unlisted("") { assert KindRequired in d; }
    if !HasPayload(e) { assert PayloadRequired in d; }
    if e.kind == ToolCall && !NonBlank(e.command) { assert ToolCallNeedsCommand in d; }
    if e.kind == Action && !NonBlank(e.text) && !NonBlank(e.command) { assert ActionNeedsText in d; }
    if Negative(e.timestampMs) { assert BadTimestamp in d; }
    if Negative(e.tokens) { assert BadTokens in d; }
  }

  /** The errors so far, with one more if it applies. */
  method PushIf(errors: seq<DraftError>, bad: bool, error: DraftError) returns (r: seq<DraftError>)
    ensures r == errors + ErrorIf(bad, error)
  {
    r := errors;
    if bad { r := r + [error]; }
  }

  method ValidateDraft(e: Event) returns (errors: seq<DraftError>)
    ensures errors == DraftErrors(e)
    ensures errors == [] <==> ValidDraft(e)
  {
    NoErrorsIff(e);
    errors := PushIf([], e.kind == Unlisted(""), KindRequired);
    errors := PushIf(errors, !HasPayload(e), PayloadRequired);
    errors := PushIf(errors, e.kind == ToolCall && !NonBlank(e.command), ToolCallNeedsCommand);
    errors := PushIf(errors, e.kind == Action && !NonBlank(e.text) && !NonBlank(e.command), ActionNeedsText);
    errors := PushIf(errors, Negative(e.timestampMs), BadTimestamp);
    errors := PushIf(errors, Negative(e.tokens), BadTokens);
  }

  /** The first occurrence of each element, in order: `[...new Set(s)]`. */
  function Distinct(s: seq<string>): (r: seq<string>)
    ensures forall x :: x in r <==> x in s
    ensures forall i, j :: 0 <= i < j < |r| ==> r[i] != r[j]
  {
    if s == [] then []
    else
      var init, last := Distinct(s[..|s| - 1]), s[|s| - 1];
      if last in init then init else init + [last]
  }

  /** `map(f).filter(Boolean)` */
  function MapNonEmpty(f: string -> string, s: seq<string>): (r: seq<string>)
    ensures forall x :: x in r <==> x != "" && exists a :: a in s && x == f(a)
  {
    if s == [] then []
    else
      var last := f(s[|s| - 1]);
      MapNonEmpty(f, s[..|s| - 1]) + (if last != "" then [last] else [])
  }

  /** Trimmed names, without the blank ones. */
  function TrimAll(files: seq<string>): seq<string> {
    MapNonEmpty(Trim, files)
  }

  function CleanFiles(files: seq<string>): seq<string> {
    Distinct(TrimAll(files))
  }

  function TrimField(s: Option<string>): Option<string> {
    if NonBlank(s) then Some(Trim(s.value)) else None
  }

  /** The cleaned event; a list of blank names becomes an empty list, an empty
      list is dropped. */
  function Cleaned(e: Event): Event {
    e.(text := TrimField(e.text),
       command := TrimField(e.command),
       touchedFiles := if e.Touched() != [] then Some(CleanFiles(e.Touched())) else None)
  }

  function Finalize(e: Event): Outcome<Event> {
    if DraftErrors(e) != [] then Thrown(InvalidEvent) else Ok(Cleaned(e))
  }

  /** Fields are assigned one by one onto an event that has its kind only. */
  method FinalizeEvent(e: Event) returns (r: Outcome<Event>)
    ensures r == Finalize(e)
    ensures r.Ok? <==> ValidDraft(e)
  {
    var errors := ValidateDraft(e);
    if errors != [] { return Thrown(InvalidEvent); }
    var f := Blank(e.kind);
    if e.timestampMs.Some? { f := f.(timestampMs := e.timestampMs); }
    if NonBlank(e.text) { f := f.(text := Some(Trim(e.text.value))); }
    if NonBlank(e.command) { f := f.(command := Some(Trim(e.command.value))); }
    if e.touchedFiles.Some? && |e.touchedFiles.value| > 0 {
      f := f.(touchedFiles := Some(CleanFiles(e.touchedFiles.value)));
    }
    f := f.(correct := e.correct, wasted := e.wasted, retry := e.retry, success := e.success);
    f := f.(verifier := e.verifier, afterExit := e.afterExit, freshShell := e.freshShell);
    f := f.(claimedSuccess := e.claimedSuccess, falseConfidence := e.falseConfidence);
    f := f.(humanIntervention := e.humanIntervention, tokens := e.tokens);
    r := Ok(f);
  }

  // ----- finalising twice -----

  /** Files are named, but all the names are blank. */
  predicate OnlyBlankFiles(e: Event) {
    e.Touched() != [] && forall f :: f in e.Touched() ==> Trim(f) == ""
  }

  lemma {:induction false} DistinctFixesDistinct(s: seq<string>)
    requires forall i, j :: 0 <= i < j < |s| ==> s[i] != s[j]
    ensures Distinct(s) == s
  {
    if s != [] {
      DistinctFixesDistinct(s[..|s| - 1]);
    }
  }

  lemma {:induction false} MapFixesFixed(f: string -> string, s: seq<string>)
    requires forall i :: 0 <= i < |s| ==> s[i] != "" && f(s[i]) == s[i]
    ensures MapNonEmpty(f, s) == s
  {
    if s != [] {
      MapFixesFixed(f, s[..|s| - 1]);
      assert s[..|s| - 1] + [s[|s| - 1]] == s;
    }
  }

  lemma CleanFixes(f: string -> string, files: seq<string>)
    requires forall x :: x in files ==> f(f(x)) == f(x)
    ensures var clean := Distinct(MapNonEmpty(f, files));
            && Distinct(MapNonEmpty(f, clean)) == clean
            && (clean == [] <==> forall x :: x in files ==> f(x) == "")
  {
    var clean := Distinct(MapNonEmpty(f, files));
    forall i | 0 <= i < |clean| ensures clean[i] != "" && f(clean[i]) == clean[i] {
      assert clean[i] in clean;
    }
    MapFixesFixed(f, clean);
    DistinctFixesDistinct(clean);
    if x :| x in files && f(x) != "" { assert f(x) in clean; }
    if clean != [] { assert clean[0] in clean; }
  }

  lemma CleanFilesFixesClean(files: seq<string>)
    ensures CleanFiles(CleanFiles(files)) == CleanFiles(files)
    ensures CleanFiles(files) == [] <==> forall f :: f in files ==> Trim(f) == ""
  {
    forall x | x in files ensures Trim(Trim(x)) == Trim(x) {
      TrimFixesTrimmed(x);
    }
    CleanFixes(Trim, files);
  }

  lemma TrimFieldFixes(s: Option<string>)
    ensures TrimField(TrimField(s)) == TrimField(s)
    ensures NonBlank(TrimField(s)) <==> NonBlank(s)
  {
    if NonBlank(s) { TrimFixesTrimmed(s.value); }
  }

  /** Finalising a finalised event changes nothing exactly when the draft did not
      name blank files only; otherwise the second call drops the empty list or,
      with no text and no command, throws. */
  lemma FinalizeTwice(e: Event, f: Event)
    requires Finalize(e) == Ok(f)
    ensures Finalize(f) == Ok(f) <==> !OnlyBlankFiles(e)
    ensures Finalize(f).Thrown? <==> OnlyBlankFiles(e) && !NonBlank(e.text) && !NonBlank(e.command)
    ensures Finalize(f).Ok? && OnlyBlankFiles(e) ==>
              f.touchedFiles == Some([]) && Finalize(f) == Ok(f.(touchedFiles := None))
  {
    TrimFieldFixes(e.text);
    TrimFieldFixes(e.command);
    NoErrorsIff(e);
    NoErrorsIff(f);
    if e.Touched() != [] { CleanFilesFixesClean(e.Touched()); }
  }

  /** For the kinds that need a text or a command, the second call never throws. */
  lemma ActionsFinalizeTwice(e: Event, f: Event)
    requires Finalize(e) == Ok(f) && (e.kind == Action || e.kind == ToolCall)
    ensures Finalize(f).Ok?
  {
    FinalizeTwice(e, f);
    NoErrorsIff(e);
  }

  /** A draft that finalises, and whose finalised form does not. */
  lemma BlankFilesThrow()
    ensures var draft := Blank(AgentClaim).(touchedFiles := Some([" "]));
            Finalize(draft).Ok? && Finalize(Finalize(draft).value).Thrown?
  {
    var draft := Blank(AgentClaim).(touchedFiles := Some([" "]));
    assert draft.Touched()[0] == " ";
    NoErrorsIff(draft);
    assert Trim(" ") == "" by { assert " "[1..] == ""; }
    assert forall f :: f in draft.Touched() ==> f == " ";
    FinalizeTwice(draft, Finalize(draft).value);
  }

  // ----- the events file -----

  function ListOf(file: EventsFile, id: string): seq<Event> {
    if id in file.record then file.record[id] else []
  }

  /** Appends what `fin` makes of an event to the list of its probe. */
  function AppendWith(fin: Event -> Outcome<Event>, file: EventsFile, probeId: string, e: Event): Outcome<EventsFile> {
    var id := Trim(probeId);
    if id == "" then Thrown(EmptyProbeId)
    else
      match fin(e)
      case Thrown(error) => Thrown(error)
      case Ok(f) => Ok(Extended(file, id, [f]))
  }

  function AppendEvent(file: EventsFile, probeId: string, e: Event): Outcome<EventsFile> {
    AppendWith(Finalize, file, probeId, e)
  }

  /** The file after folding all events into it. */
  function Fold(fin: Event -> Outcome<Event>, file: EventsFile, probeId: string, events: seq<Event>)
    : Outcome<EventsFile>
    decreases |events|
  {
    if events == [] then Ok(file)
    else
      match AppendWith(fin, file, probeId, events[0])
      case Thrown(error) => Thrown(error)
      case Ok(next) => Fold(fin, next, probeId, events[1..])
  }

  function ApplyAttempt(file: EventsFile, probeId: string, events: seq<Event>): Outcome<EventsFile> {
    match Fold(Finalize, file, probeId, events)
    case Thrown(error) => Thrown(error)
    case Ok(updated) => Ok(Wrapped(updated.record))
  }

  /** The loop that replaces the file event by event and stops at a throw. */
  method ApplyAttemptToEvents(file: EventsFile, probeId: string, events: seq<Event>) returns (r: Outcome<EventsFile>)
    ensures r == ApplyAttempt(file, probeId, events)
  {
    var updated := file;
    for i := 0 to |events|
      invariant Fold(Finalize, file, probeId, events) == Fold(Finalize, updated, probeId, events[i..])
    {
      var next := AppendEvent(updated, probeId, events[i]);
      assert events[i..][1..] == events[i + 1..];
      match next {
        case Thrown(error) => return Thrown(error);
        case Ok(value) => updated := value;
      }
    }
    r := Ok(Wrapped(updated.record));
  }

  /** When folding succeeds. */
  lemma {:induction false} FoldOkIff(fin: Event -> Outcome<Event>, file: EventsFile, probeId: string,
                                     events: seq<Event>)
    ensures Fold(fin, file, probeId, events).Ok? <==> events == [] || (Trim(probeId) != "" && Traverse(fin, events).Ok?)
    decreases |events|
  {
    if events != [] {
      var first := AppendWith(fin, file, probeId, events[0]);
      if first.Ok? {
        FoldOkIff(fin, first.value, probeId, events[1..]);
      }
    }
  }

  /** What folding leaves: the finalised events at the end of the list of their
      probe, every other list as it was. */
  lemma {:induction false} FoldAppends(fin: Event -> Outcome<Event>, file: EventsFile, probeId: string, id: string,
                                       events: seq<Event>, made: seq<Event>)
    requires events != [] && id == Trim(probeId) && id != "" && Traverse(fin, events) == Ok(made)
    ensures Fold(fin, file, probeId, events) == Ok(Extended(file, id, made))
    decreases |events|
  {
    var next := Extended(file, id, [made[0]]);
    assert fin(events[0]) == Ok(made[0]);
    assert AppendWith(fin, file, probeId, events[0]) == Ok(next);
    ExtendTwice(file, id, [made[0]], made[1..]);
    assert made == [made[0]] + made[1..];
    if |events| > 1 {
      FoldAppends(fin, next, probeId, id, events[1..], made[1..]);
    } else {
      assert events[1..] == [] && made == [made[0]];
    }
  }

  /** The file with events added at the end of one list. */
  function Extended(file: EventsFile, id: string, events: seq<Event>): EventsFile {
    Wrapped(file.record[id := ListOf(file, id) + events])
  }

  lemma ExtendTwice(file: EventsFile, id: string, a: seq<Event>, b: seq<Event>)
    ensures Extended(Extended(file, id, a), id, b) == Extended(file, id, a + b)
  {
    assert ListOf(file, id) + a + b == ListOf(file, id) + (a + b);
  }

  /** An attempt holds finalised events. Applying it appends exactly those, in
      order, when no draft named blank files only. */
  lemma AttemptAppends(file: EventsFile, probeId: string, drafts: seq<Event>, events: seq<Event>)
    requires Traverse(Finalize, drafts) == Ok(events) && drafts != [] && Trim(probeId) != ""
    requires forall i :: 0 <= i < |drafts| ==> !OnlyBlankFiles(drafts[i])
    ensures ApplyAttempt(file, probeId, events) == Ok(Extended(file, Trim(probeId), events))
  {
    forall i | 0 <= i < |events| ensures Finalize(events[i]) == Ok(events[i]) {
      FinalizeTwice(drafts[i], events[i]);
    }
    FixedTraverse(Finalize, events);
    FoldAppends(Finalize, file, probeId, Trim(probeId), events, events);
  }

  lemma {:induction false} FixedTraverse(fin: Event -> Outcome<Event>, events: seq<Event>)
    requires forall i :: 0 <= i < |events| ==> fin(events[i]) == Ok(events[i])
    ensures Traverse(fin, events) == Ok(events)
  {
    if events != [] {
      FixedTraverse(fin, events[1..]);
      assert [events[0]] + events[1..] == events;
    }
  }

  /** Applying an attempt throws exactly when some draft was nothing but blank
      file names. */
  lemma AttemptThrowsIff(file: EventsFile, probeId: string, drafts: seq<Event>, events: seq<Event>)
    requires Traverse(Finalize, drafts) == Ok(events) && drafts != [] && Trim(probeId) != ""
    ensures ApplyAttempt(file, probeId, events).Thrown? <==>
            exists i :: 0 <= i < |drafts| && IsNothingButBlankFiles(drafts[i])
  {
    forall i | 0 <= i < |events| ensures Finalize(events[i]).Thrown? <==> IsNothingButBlankFiles(drafts[i]) {
      FinalizeTwice(drafts[i], events[i]);
    }
    FoldThrowsIff(Finalize, IsNothingButBlankFiles, file, probeId, drafts, events);
  }

  lemma FoldThrowsIff(fin: Event -> Outcome<Event>, bad: Event -> bool, file: EventsFile, probeId: string,
                      drafts: seq<Event>, events: seq<Event>)
    requires |drafts| == |events| && events != [] && Trim(probeId) != ""
    requires forall i :: 0 <= i < |events| ==> (fin(events[i]).Thrown? <==> bad(drafts[i]))
    ensures Fold(fin, file, probeId, events).Thrown? <==> exists i :: 0 <= i < |drafts| && bad(drafts[i])
  {
    FoldOkIff(fin, file, probeId, events);
    TraverseThrowsIff(fin, events);
  }

  predicate IsNothingButBlankFiles(e: Event) {
    OnlyBlankFiles(e) && !NonBlank(e.text) && !NonBlank(e.command)
  }

  lemma TraverseThrowsIff(fin: Event -> Outcome<Event>, events: seq<Event>)
    ensures Traverse(fin, events).Thrown? <==> exists i :: 0 <= i < |events| && fin(events[i]).Thrown?
  {
    if Traverse(fin, events).Ok? {
      assert forall i :: 0 <= i < |events| ==> fin(events[i]).Ok?;
    }
  }
}
