/** Persistence of workflow states: WorkflowStore.save and load.

    A row is keyed by the text of the workflow id. Texts of ids, and JSON texts, are
    represented by what they parse to; what the encoding does to values is modelled. */
module WorkflowStore {
  import opened Common
  import opened WorkflowModels

  // ----- json.dumps and json.loads -----

  datatype Json =
    | JNull
    | JBool(b: bool)
    | JInt(i: int)
    | JFloat(r: real)
    | JStr(s: string)
    | JArray(items: seq<Json>)
    | JObject(members: seq<Member>)

  datatype Member = Member(name: string, value: Json)

  /** `json.dumps(value, default=str)`: tuples become arrays, keys become strings, and a value
      without notation becomes its text. */
  function Dumps(v: Py): Json
    decreases v, 1
  {
    match v
    case PyNone => JNull
    case PyBool(b) => JBool(b)
    case PyInt(i) => JInt(i)
    case PyFloat(r) => JFloat(r)
    case PyStr(s) => JStr(s)
    case PyList(items) => JArray(DumpsAll(items))
    case PyTuple(parts) => JArray(DumpsAll(parts))
    case PyDict(entries) => JObject(DumpsEntries(entries))
    case PyOther(text) => JStr(text)
  }

  function DumpsAll(vs: seq<Py>): seq<Json>
    decreases vs, 0
  {
    if vs == [] then [] else [Dumps(vs[0])] + DumpsAll(vs[1..])
  }

  function DumpsEntries(es: seq<Entry>): seq<Member>
    decreases es, 0
  {
    if es == [] then [] else [Member(es[0].key, Dumps(es[0].value))] + DumpsEntries(es[1..])
  }

  function Loads(j: Json): Py
    decreases j, 1
  {
    match j
    case JNull => PyNone
    case JBool(b) => PyBool(b)
    case JInt(i) => PyInt(i)
    case JFloat(r) => PyFloat(r)
    case JStr(s) => PyStr(s)
    case JArray(items) => PyList(LoadsAll(items))
    case JObject(members) => PyDict(LoadsMembers(members))
  }

  function LoadsAll(js: seq<Json>): seq<Py>
    decreases js, 0
  {
    if js == [] then [] else [Loads(js[0])] + LoadsAll(js[1..])
  }

  /** The members are assigned in turn, so of repeated ones the last value wins, in the place
      of the first. */
  function LoadsMembers(ms: seq<Member>): seq<Entry>
    decreases ms, 0
  {
    if ms == [] then []
    else Assign(LoadsMembers(ms[..|ms| - 1]), ms[|ms| - 1].name, Loads(ms[|ms| - 1].value))
  }

  /** `d[key] = value` on a dictionary with text keys. */
  function Assign(es: seq<Entry>, key: string, value: Py): seq<Entry> {
    if es == [] then [Entry(key, TextKey, value)]
    else if es[0].key == key then [es[0].(value := value)] + es[1..]
    else [es[0]] + Assign(es[1..], key, value)
  }

  /** Does json.dumps accept the value? With a default, a value without notation is written as
      its text; a key that is no text, number, boolean or None is refused in either case. */
  predicate Encodable(v: Py, withDefault: bool)
    decreases v, 1
  {
    match v
    case PyList(items) => AllEncodable(items, withDefault)
    case PyTuple(parts) => AllEncodable(parts, withDefault)
    case PyDict(entries) => EntriesEncodable(entries, withDefault)
    case PyOther(_) => withDefault
    case _ => true
  }

  predicate AllEncodable(vs: seq<Py>, withDefault: bool)
    decreases vs, 0
  {
    vs == [] || (Encodable(vs[0], withDefault) && AllEncodable(vs[1..], withDefault))
  }

  predicate EntriesEncodable(es: seq<Entry>, withDefault: bool)
    decreases es, 0
  {
    es == [] || (!es[0].kind.OtherKey? && Encodable(es[0].value, withDefault) && EntriesEncodable(es[1..], withDefault))
  }

  // ----- which values survive -----

  /** JSON-native: no tuple, no foreign value, and only distinct string keys. */
  predicate Native(v: Py)
    decreases v, 1
  {
    match v
    case PyList(items) => AllNative(items)
    case PyTuple(_) => false
    case PyDict(entries) => EntriesNative(entries)
    case PyOther(_) => false
    case _ => true
  }

  predicate AllNative(vs: seq<Py>)
    decreases vs, 0
  {
    vs == [] || (Native(vs[0]) && AllNative(vs[1..]))
  }

  predicate EntriesNative(es: seq<Entry>)
    decreases es, 0
  {
    && (forall i :: 0 <= i < |es| ==> es[i].kind.TextKey? && Native(es[i].value))
    && (forall i, j :: 0 <= i < j < |es| ==> es[i].key != es[j].key)
  }

  /** Assigning to a new key adds it at the end, and to an old one replaces its value. */
  lemma {:induction false} AssignNew(es: seq<Entry>, key: string, value: Py)
    requires forall i :: 0 <= i < |es| ==> es[i].key != key
    ensures Assign(es, key, value) == es + [Entry(key, TextKey, value)]
  {
    if es != [] {
      AssignNew(es[1..], key, value);
    }
  }

  lemma {:induction false} AssignOld(es: seq<Entry>, i: nat, value: Py)
    requires i < |es| && forall j :: 0 <= j < i ==> es[j].key != es[i].key
    ensures Assign(es, es[i].key, value) == es[i := es[i].(value := value)]
  {
    if i > 0 {
      AssignOld(es[1..], i - 1, value);
    }
  }

  lemma {:induction false} AssignKeepsNative(es: seq<Entry>, key: string, value: Py)
    requires EntriesNative(es) && Native(value)
    ensures EntriesNative(Assign(es, key, value))
  {
    if i :| 0 <= i < |es| && es[i].key == key {
      AssignOld(es, i, value);
    } else {
      AssignNew(es, key, value);
    }
  }

  lemma {:induction false} DumpsEntriesAt(es: seq<Entry>)
    ensures |DumpsEntries(es)| == |es|
    ensures forall i :: 0 <= i < |es| ==> DumpsEntries(es)[i] == Member(es[i].key, Dumps(es[i].value))
  {
    if es != [] {
      DumpsEntriesAt(es[1..]);
    }
  }

  lemma {:induction false} DumpsEntriesLast(es: seq<Entry>)
    requires es != []
    ensures var n := |es| - 1;
            && |DumpsEntries(es)| == n + 1 && DumpsEntries(es)[..n] == DumpsEntries(es[..n])
            && DumpsEntries(es)[n] == Member(es[n].key, Dumps(es[n].value))
  {
    DumpsEntriesAt(es);
    DumpsEntriesAt(es[..|es| - 1]);
  }

  lemma {:induction false} NativeSurvives(v: Py)
    requires Native(v)
    ensures Loads(Dumps(v)) == v
    decreases v, 1
  {
    match v
    case PyList(items) => AllNativeSurvive(items);
    case PyDict(entries) => EntriesNativeSurvive(entries);
    case _ =>
  }

  lemma {:induction false} AllNativeSurvive(vs: seq<Py>)
    requires AllNative(vs)
    ensures LoadsAll(DumpsAll(vs)) == vs
    decreases vs, 0
  {
    if vs != [] {
      NativeSurvives(vs[0]);
      AllNativeSurvive(vs[1..]);
      assert DumpsAll(vs)[1..] == DumpsAll(vs[1..]);
    }
  }

  lemma {:induction false} EntriesNativeSurvive(es: seq<Entry>)
    requires EntriesNative(es)
    ensures LoadsMembers(DumpsEntries(es)) == es
    decreases es, 0
  {
    if es != [] {
      var n := |es| - 1;
      NativeSurvives(es[n].value);
      EntriesNativeSurvive(es[..n]);
      DumpsEntriesLast(es);
      AssignNew(es[..n], es[n].key, es[n].value);
    }
  }

  lemma {:induction false} LoadedIsNative(j: Json)
    ensures Native(Loads(j))
    decreases j, 1
  {
    match j
    case JArray(items) => AllLoadedNative(items);
    case JObject(members) => MembersLoadedNative(members);
    case _ =>
  }

  lemma {:induction false} AllLoadedNative(js: seq<Json>)
    ensures AllNative(LoadsAll(js))
    decreases js, 0
  {
    if js != [] {
      LoadedIsNative(js[0]);
      AllLoadedNative(js[1..]);
      assert LoadsAll(js)[1..] == LoadsAll(js[1..]);
    }
  }

  lemma {:induction false} MembersLoadedNative(ms: seq<Member>)
    ensures EntriesNative(LoadsMembers(ms))
    decreases ms, 0
  {
    if ms != [] {
      var n := |ms| - 1;
      LoadedIsNative(ms[n].value);
      MembersLoadedNative(ms[..n]);
      AssignKeepsNative(LoadsMembers(ms[..n]), ms[n].name, Loads(ms[n].value));
    }
  }

  /** A value comes back from the database as it was saved exactly when it is JSON-native. */
  lemma SurvivesIffNative(v: Py)
    ensures Loads(Dumps(v)) == v <==> Native(v)
  {
    if Native(v) {
      NativeSurvives(v);
    } else {
      LoadedIsNative(Dumps(v));
    }
  }

  // ----- what becomes of the others -----

  /** A value as JSON leaves it: a tuple is a list, a foreign value is its text, and a dictionary
      has text keys, the last value of a repeated one in the place of the first. */
  function Plain(v: Py): Py
    decreases v, 1
  {
    match v
    case PyList(items) => PyList(PlainAll(items))
    case PyTuple(parts) => PyList(PlainAll(parts))
    case PyDict(entries) => PyDict(PlainEntries(entries))
    case PyOther(text) => PyStr(text)
    case _ => v
  }

  function PlainAll(vs: seq<Py>): (plain: seq<Py>)
    ensures |plain| == |vs|
    decreases vs, 0
  {
    if vs == [] then [] else PlainAll(vs[..|vs| - 1]) + [Plain(vs[|vs| - 1])]
  }

  function PlainEntries(es: seq<Entry>): seq<Entry>
    decreases es, 0
  {
    if es == [] then []
    else Assign(PlainEntries(es[..|es| - 1]), es[|es| - 1].key, Plain(es[|es| - 1].value))
  }

  lemma {:induction false} DumpsAllAt(vs: seq<Py>)
    ensures |DumpsAll(vs)| == |vs|
    ensures forall i :: 0 <= i < |vs| ==> DumpsAll(vs)[i] == Dumps(vs[i])
  {
    if vs != [] {
      DumpsAllAt(vs[1..]);
    }
  }

  lemma {:induction false} LoadsAllAt(js: seq<Json>)
    ensures |LoadsAll(js)| == |js|
    ensures forall i :: 0 <= i < |js| ==> LoadsAll(js)[i] == Loads(js[i])
  {
    if js != [] {
      LoadsAllAt(js[1..]);
    }
  }

  lemma {:induction false} JsonLast(vs: seq<Py>)
    requires vs != []
    ensures var n := |vs| - 1;
            LoadsAll(DumpsAll(vs)) == LoadsAll(DumpsAll(vs[..n])) + [Loads(Dumps(vs[n]))]
  {
    DumpsAllAt(vs);
    LoadsAllAt(DumpsAll(vs));
    DumpsAllAt(vs[..|vs| - 1]);
    LoadsAllAt(DumpsAll(vs[..|vs| - 1]));
  }

  /** Saving and loading any value makes it plain. */
  lemma {:induction false} JsonMakesPlain(v: Py)
    ensures Loads(Dumps(v)) == Plain(v)
    decreases v, 1
  {
    match v
    case PyList(items) => JsonMakesAllPlain(items);
    case PyTuple(parts) => JsonMakesAllPlain(parts);
    case PyDict(entries) => JsonMakesEntriesPlain(entries);
    case _ =>
  }

  lemma {:induction false} JsonMakesAllPlain(vs: seq<Py>)
    ensures LoadsAll(DumpsAll(vs)) == PlainAll(vs)
    decreases vs, 0
  {
    if vs != [] {
      var n := |vs| - 1;
      JsonMakesPlain(vs[n]);
      JsonMakesAllPlain(vs[..n]);
      JsonLast(vs);
    }
  }

  lemma {:induction false} JsonMakesEntriesPlain(es: seq<Entry>)
    ensures LoadsMembers(DumpsEntries(es)) == PlainEntries(es)
    decreases es, 0
  {
    if es != [] {
      var n := |es| - 1;
      JsonMakesPlain(es[n].value);
      JsonMakesEntriesPlain(es[..n]);
      DumpsEntriesLast(es);
    }
  }

  // ----- which values raise -----

  /** `part` is the value itself or sits somewhere inside it. */
  ghost predicate Within(part: Py, v: Py)
    decreases v
  {
    || part == v
    || (v.PyList? && exists i :: 0 <= i < |v.items| && Within(part, v.items[i]))
    || (v.PyTuple? && exists i :: 0 <= i < |v.parts| && Within(part, v.parts[i]))
    || (v.PyDict? && exists i :: 0 <= i < |v.entries| && Within(part, v.entries[i].value))
  }

  /** JSON refuses a dictionary with a key that is no text, number, boolean or None, and without
      a default also a value it has no notation for. */
  predicate Refused(part: Py, withDefault: bool) {
    || (part.PyDict? && exists i :: 0 <= i < |part.entries| && part.entries[i].kind == OtherKey)
    || (part.PyOther? && !withDefault)
  }

  lemma {:induction false} AllEncodableAt(vs: seq<Py>, withDefault: bool)
    ensures AllEncodable(vs, withDefault) <==> forall i :: 0 <= i < |vs| ==> Encodable(vs[i], withDefault)
  {
    if vs != [] {
      AllEncodableAt(vs[1..], withDefault);
      assert vs == [vs[0]] + vs[1..];
    }
  }

  lemma {:induction false} EntriesEncodableAt(es: seq<Entry>, withDefault: bool)
    ensures EntriesEncodable(es, withDefault) <==>
            forall i :: 0 <= i < |es| ==> es[i].kind != OtherKey && Encodable(es[i].value, withDefault)
  {
    if es != [] {
      EntriesEncodableAt(es[1..], withDefault);
      assert es == [es[0]] + es[1..];
    }
  }

  lemma {:induction false} EncodableParts(v: Py, part: Py, withDefault: bool)
    requires Encodable(v, withDefault) && Within(part, v)
    ensures !Refused(part, withDefault)
    decreases v
  {
    match v
    case PyList(items) =>
      AllEncodableAt(items, withDefault);
      if part != v {
        var i :| 0 <= i < |items| && Within(part, items[i]);
        EncodableParts(items[i], part, withDefault);
      }
    case PyTuple(parts) =>
      AllEncodableAt(parts, withDefault);
      if part != v {
        var i :| 0 <= i < |parts| && Within(part, parts[i]);
        EncodableParts(parts[i], part, withDefault);
      }
    case PyDict(entries) =>
      EntriesEncodableAt(entries, withDefault);
      if part != v {
        var i :| 0 <= i < |entries| && Within(part, entries[i].value);
        EncodableParts(entries[i].value, part, withDefault);
      }
    case _ =>
  }

  lemma {:induction false} RefusedPart(v: Py, withDefault: bool) returns (part: Py)
    requires !Encodable(v, withDefault)
    ensures Within(part, v) && Refused(part, withDefault)
    decreases v
  {
    part := v;
    match v
    case PyList(items) =>
      AllEncodableAt(items, withDefault);
      var i :| 0 <= i < |items| && !Encodable(items[i], withDefault);
      part := RefusedPart(items[i], withDefault);
    case PyTuple(parts) =>
      AllEncodableAt(parts, withDefault);
      var i :| 0 <= i < |parts| && !Encodable(parts[i], withDefault);
      part := RefusedPart(parts[i], withDefault);
    case PyDict(entries) =>
      EntriesEncodableAt(entries, withDefault);
      if i :| 0 <= i < |entries| && !Encodable(entries[i].value, withDefault) {
        part := RefusedPart(entries[i].value, withDefault);
      }
    case PyOther(_) =>
  }

  /** Encoding raises exactly for a value with a refused part, however deep. */
  lemma {:induction false} EncodableIffNothingRefused(v: Py, withDefault: bool)
    ensures Encodable(v, withDefault) <==> forall part :: Within(part, v) ==> !Refused(part, withDefault)
  {
    if Encodable(v, withDefault) {
      forall part | Within(part, v)
        ensures !Refused(part, withDefault)
      {
        EncodableParts(v, part, withDefault);
      }
    } else {
      var part := RefusedPart(v, withDefault);
    }
  }

  lemma {:induction false} NativeIsEncodable(v: Py, withDefault: bool)
    requires Native(v)
    ensures Encodable(v, withDefault)
    decreases v, 1
  {
    match v
    case PyList(items) => AllNativeEncodable(items, withDefault);
    case PyDict(entries) => EntriesNativeEncodable(entries, withDefault);
    case _ =>
  }

  lemma {:induction false} AllNativeEncodable(vs: seq<Py>, withDefault: bool)
    requires AllNative(vs)
    ensures AllEncodable(vs, withDefault)
    decreases vs, 0
  {
    if vs != [] {
      NativeIsEncodable(vs[0], withDefault);
      AllNativeEncodable(vs[1..], withDefault);
    }
  }

  lemma {:induction false} EntriesNativeEncodable(es: seq<Entry>, withDefault: bool)
    requires EntriesNative(es)
    ensures EntriesEncodable(es, withDefault)
    decreases es, 0
  {
    if es != [] {
      NativeIsEncodable(es[0].value, withDefault);
      EntriesNativeEncodable(es[1..], withDefault);
    }
  }

  // ----- enum texts -----

  function PhaseText(p: Phase): string {
    match p
    case Understand => "understand"
    case RetrieveKnowledge => "retrieve_knowledge"
    case InspectProduct => "inspect_product"
    case EvaluateIdea => "evaluate_idea"
    case IdentifyRisks => "identify_risks"
    case CreatePlan => "create_plan"
    case ArchitectureReview => "architecture_review"
    case Approval => "approval"
    case Implement => "implement"
    case Test => "test"
    case Debug => "debug"
    case Correct => "correct"
    case SecurityReview => "security_review"
    case RequirementVerification => "requirement_verification"
    case Document => "document"
    case FinalReport => "final_report"
  }

  /** `WorkflowPhase(text)`: the first member with that value, or ValueError. */
  function ParsePhaseFrom(text: string, i: nat): Option<Phase>
    requires i <= |PHASES|
    decreases |PHASES| - i
  {
    if i == |PHASES| then None
    else if PhaseText(PHASES[i]) == text then Some(PHASES[i])
    else ParsePhaseFrom(text, i + 1)
  }

  function ParsePhase(text: string): Option<Phase> {
    ParsePhaseFrom(text, 0)
  }

  function StatusText(s: Status): string {
    match s
    case Pending => "pending"
    case Running => "running"
    case WaitingApproval => "waiting_approval"
    case Escalated => "escalated"
    case Completed => "completed"
    case Failed => "failed"
  }

  function ParseStatus(text: string): Option<Status> {
    if text == StatusText(Pending) then Some(Pending)
    else if text == StatusText(Running) then Some(Running)
    else if text == StatusText(WaitingApproval) then Some(WaitingApproval)
    else if text == StatusText(Escalated) then Some(Escalated)
    else if text == StatusText(Completed) then Some(Completed)
    else if text == StatusText(Failed) then Some(Failed)
    else None
  }

  /** A number that tells the sixteen texts apart: the length and the first characters. */
  function Fingerprint(text: string): (int, char, char)
    requires |text| >= 2
  {
    (|text|, text[0], text[1])
  }

  lemma PhaseTextsDiffer(p: Phase, q: Phase)
    requires p != q
    ensures |PhaseText(p)| >= 2 && |PhaseText(q)| >= 2
    ensures Fingerprint(PhaseText(p)) != Fingerprint(PhaseText(q))
  {
  }

  /** The position of a phase in declaration order. */
  function Place(p: Phase): (k: nat)
    ensures k < |PHASES| && PHASES[k] == p
  {
    match p
    case Understand => 0
    case RetrieveKnowledge => 1
    case InspectProduct => 2
    case EvaluateIdea => 3
    case IdentifyRisks => 4
    case CreatePlan => 5
    case ArchitectureReview => 6
    case Approval => 7
    case Implement => 8
    case Test => 9
    case Debug => 10
    case Correct => 11
    case SecurityReview => 12
    case RequirementVerification => 13
    case Document => 14
    case FinalReport => 15
  }

  lemma {:induction false} ParseFindsPhase(p: Phase, i: nat)
    requires i <= Place(p)
    ensures ParsePhaseFrom(PhaseText(p), i) == Some(p)
    decreases |PHASES| - i
  {
    var q := PHASES[i];
    if q != p {
      TextTellsPhases(q, p);
      ParseFindsPhase(p, i + 1);
    }
  }

  lemma TextTellsPhases(p: Phase, q: Phase)
    requires p != q
    ensures PhaseText(p) != PhaseText(q)
  {
    PhaseTextsDiffer(p, q);
  }

  lemma PhaseRoundTrip(p: Phase)
    ensures ParsePhase(PhaseText(p)) == Some(p)
  {
    ParseFindsPhase(p, 0);
  }

  lemma StatusRoundTrip(s: Status)
    ensures ParseStatus(StatusText(s)) == Some(s)
  {
    assert "pending"[0] == 'p' && "running"[0] == 'r' && "waiting_approval"[0] == 'w';
    assert "escalated"[0] == 'e' && "completed"[0] == 'c' && "failed"[0] == 'f';
  }

  // ----- rows -----

  /** A JSON object with known members is a record of them; its tuples have become arrays. */
  datatype EventRow = EventRow(
    phase: string,
    status: string,
    detail: string,
    evidence: seq<string>,
    failures: seq<string>,
    corrections: seq<string>,
    risks: seq<string>,
    uncertainty: seq<string>,
    id: nat)

  datatype CheckpointRow = CheckpointRow(phase: string, resource: string, reason: string, requestId: nat)

  datatype Row = Row(
    objective: string,
    repository: string,
    input: Json,
    status: string,
    phaseIndex: nat,
    events: seq<EventRow>,
    approval: Option<CheckpointRow>,
    data: Json,
    escalationReason: Option<string>)

  function EncodeEvent(e: WorkflowEvent): EventRow {
    EventRow(PhaseText(e.phase), e.status, e.detail, e.evidence, e.failures, e.corrections,
             e.risks, e.uncertainty, e.id)
  }

  function EncodeEvents(es: seq<WorkflowEvent>): seq<EventRow> {
    if es == [] then [] else [EncodeEvent(es[0])] + EncodeEvents(es[1..])
  }

  function Encode(s: WorkflowState): Row {
    Row(s.request.objective, s.request.repository, Dumps(s.request.input), StatusText(s.status),
        s.phaseIndex, EncodeEvents(s.events),
        if s.approval.None? then None
        else Some(CheckpointRow(PhaseText(s.approval.value.phase), s.approval.value.resource,
                                s.approval.value.reason, s.approval.value.requestId)),
        Dumps(s.data), s.escalationReason)
  }

  /** None is the ValueError of an enum text without member. */
  function DecodeEvent(r: EventRow): Option<WorkflowEvent> {
    match ParsePhase(r.phase)
    case None => None
    case Some(phase) =>
      Some(WorkflowEvent(phase, r.status, r.detail, r.evidence, r.failures, r.corrections,
                         r.risks, r.uncertainty, r.id))
  }

  function DecodeEvents(rs: seq<EventRow>): Option<seq<WorkflowEvent>> {
    if rs == [] then Some([])
    else
      match (DecodeEvent(rs[0]), DecodeEvents(rs[1..]))
      case (Some(e), Some(es)) => Some([e] + es)
      case _ => None
  }

  function DecodeCheckpoint(r: Option<CheckpointRow>): Option<Option<Checkpoint>> {
    match r
    case None => Some(None)
    case Some(c) =>
      match ParsePhase(c.phase)
      case None => None
      case Some(phase) => Some(Some(Checkpoint(phase, c.resource, c.reason, c.requestId)))
  }

  function Decode(id: nat, r: Row): Option<WorkflowState> {
    match (ParseStatus(r.status), DecodeEvents(r.events), DecodeCheckpoint(r.approval))
    case (Some(status), Some(events), Some(approval)) =>
      Some(WorkflowState(Request(r.objective, r.repository, Loads(r.input), id), status, r.phaseIndex,
                         events, approval, Loads(r.data), r.escalationReason))
    case _ => None
  }

  lemma EventRoundTrip(e: WorkflowEvent)
    ensures DecodeEvent(EncodeEvent(e)) == Some(e)
  {
    PhaseRoundTrip(e.phase);
  }

  lemma {:induction false} EventsRoundTrip(es: seq<WorkflowEvent>)
    ensures DecodeEvents(EncodeEvents(es)) == Some(es)
  {
    if es != [] {
      EventRoundTrip(es[0]);
      EventsRoundTrip(es[1..]);
      assert EncodeEvents(es)[1..] == EncodeEvents(es[1..]);
      assert [es[0]] + es[1..] == es;
    }
  }

  function ThroughJson(s: WorkflowState): WorkflowState {
    s.(request := s.request.(input := Plain(s.request.input)), data := Plain(s.data))
  }

  /** What a saved state comes back as: itself, except for what JSON does to its values. */
  lemma DecodeEncode(s: WorkflowState)
    ensures Decode(s.request.id, Encode(s)) == Some(ThroughJson(s))
  {
    EventsRoundTrip(s.events);
    StatusRoundTrip(s.status);
    JsonMakesPlain(s.request.input);
    JsonMakesPlain(s.data);
    if s.approval.Some? {
      PhaseRoundTrip(s.approval.value.phase);
    }
  }

  // ----- the table -----

  type Table = map<nat, Row>

  datatype SaveError = TypeError

  /** Both are encoded before the database is opened: `input` without a default, `data` with. */
  predicate Acceptable(s: WorkflowState) {
    Encodable(s.request.input, false) && Encodable(s.data, true)
  }

  /** INSERT ... ON CONFLICT(id) DO UPDATE, or TypeError. */
  function Saved(t: Table, s: WorkflowState): Result<Table, SaveError> {
    if Acceptable(s) then Ok(t[s.request.id := Encode(s)]) else Err(TypeError)
  }

  function Loaded(t: Table, id: nat): Option<WorkflowState> {
    if id in t then Decode(id, t[id]) else None
  }

  /** Saving succeeds and loading then gives the same state exactly when its input and data are
      JSON-native. */
  lemma LoadAfterSave(t: Table, s: WorkflowState)
    ensures (Saved(t, s).Ok? && Loaded(Saved(t, s).value, s.request.id) == Some(s))
            <==> (Native(s.request.input) && Native(s.data))
  {
    DecodeEncode(s);
    JsonMakesPlain(s.request.input);
    JsonMakesPlain(s.data);
    SurvivesIffNative(s.request.input);
    SurvivesIffNative(s.data);
    if Native(s.request.input) && Native(s.data) {
      NativeIsEncodable(s.request.input, false);
      NativeIsEncodable(s.data, true);
    }
  }

  /** Saves in sequence; one that raises leaves the table as it was. */
  function SaveAll(t: Table, states: seq<WorkflowState>): Table {
    if states == [] then t
    else
      var before := SaveAll(t, states[..|states| - 1]);
      match Saved(before, states[|states| - 1])
      case Ok(after) => after
      case Err(_) => before
  }

  /** The last state saved under `id`, if any. */
  function LastSaved(states: seq<WorkflowState>, id: nat): Option<WorkflowState> {
    if states == [] then None
    else if states[|states| - 1].request.id == id && Acceptable(states[|states| - 1])
    then Some(states[|states| - 1])
    else LastSaved(states[..|states| - 1], id)
  }

  /** Over any sequence of saves each workflow is loaded as it was last saved, but for what JSON
      does to input and data, and a workflow that was not saved is loaded as before: no save
      disturbs another workflow. */
  lemma {:induction false} SavesAreIndependent(t: Table, states: seq<WorkflowState>, id: nat)
    ensures Loaded(SaveAll(t, states), id)
              == match LastSaved(states, id)
                 case Some(s) => Some(ThroughJson(s))
                 case None => Loaded(t, id)
  {
    if states != [] {
      SavesAreIndependent(t, states[..|states| - 1], id);
      DecodeEncode(states[|states| - 1]);
    }
  }

  class WorkflowDatabase {
    var table: Table

    constructor ()
      ensures table == map[]
    {
      table := map[];
    }

    method Save(s: WorkflowState) returns (refused: Option<SaveError>)
      modifies this
      ensures refused.None? <==> Encodable(s.request.input, false) && Encodable(s.data, true)
      ensures refused.Some? <==> Saved(old(table), s).Err?
      ensures refused.None? ==> Saved(old(table), s) == Ok(table) && table == old(table)[s.request.id := Encode(s)]
      ensures refused.Some? ==> table == old(table)
      ensures forall id :: id != s.request.id ==> Loaded(table, id) == Loaded(old(table), id)
    {
      if !Encodable(s.request.input, false) || !Encodable(s.data, true) {
        return Some(TypeError);
      }
      table := table[s.request.id := Encode(s)];
      return None;
    }

    method Load(id: nat) returns (s: Option<WorkflowState>)
      ensures s == Loaded(table, id)
    {
      if id !in table {
        return None;
      }
      s := Decode(id, table[id]);
    }
  }
}
