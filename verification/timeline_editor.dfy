/** The timeline editor's list state: the initial list, the add, remove and
    update reducers, and the clean-up applied before the list is saved. */
module TimelineEditor {
  import opened Wrappers
  import opened Text
  import opened Biography

  // ---------------------------------------------------------------------
  // Events and fields
  // ---------------------------------------------------------------------

  /** A blank event. The identifier is generated by the caller (a random
      UUID in the application). */
  function EmptyEvent(id: string): (e: TimelineEvent)
    ensures e.id == id
    ensures e.title == "" && e.date == "" && e.description == ""
    ensures e.imageUrl == Some("") && e.notes == Some("")
  {
    TimelineEvent(id, "", "", "", Some(""), Some(""))
  }

  /** The list the editor starts from: the stored timeline when it has
      events, otherwise one blank event. */
  function InitialEvents(stored: seq<TimelineEvent>, freshId: string): (r: seq<TimelineEvent>)
    ensures |r| >= 1
    ensures stored != [] ==> r == stored
    ensures stored == [] ==> r == [EmptyEvent(freshId)]
  {
    if |stored| > 0 then stored else [EmptyEvent(freshId)]
  }

  /** The keys of an event that the update reducer may set. */
  datatype EventField = IdField | TitleField | DateField | DescriptionField | ImageUrlField | NotesField

  /** The value of one field; the optional fields may be absent. */
  function FieldValue(e: TimelineEvent, field: EventField): Option<string> {
    match field
    case IdField => Some(e.id)
    case TitleField => Some(e.title)
    case DateField => Some(e.date)
    case DescriptionField => Some(e.description)
    case ImageUrlField => e.imageUrl
    case NotesField => e.notes
  }

  /** `{ ...event, [field]: value }`. */
  function SetField(e: TimelineEvent, field: EventField, value: string): TimelineEvent {
    match field
    case IdField => e.(id := value)
    case TitleField => e.(title := value)
    case DateField => e.(date := value)
    case DescriptionField => e.(description := value)
    case ImageUrlField => e.(imageUrl := Some(value))
    case NotesField => e.(notes := Some(value))
  }

  /** Setting a field gives it the new value and leaves every other field
      as it was. */
  lemma SetFieldFrame(e: TimelineEvent, field: EventField, value: string, other: EventField)
    ensures FieldValue(SetField(e, field, value), field) == Some(value)
    ensures other != field ==> FieldValue(SetField(e, field, value), other) == FieldValue(e, other)
  {
  }

  // ---------------------------------------------------------------------
  // Reducers
  // ---------------------------------------------------------------------

  /** `updateEvent(id, field, value)`: every event with the given id gets
      the field set; every other event is left alone. */
  function UpdateEvent(events: seq<TimelineEvent>, id: string, field: EventField, value: string)
    : (r: seq<TimelineEvent>)
    ensures |r| == |events|
    ensures forall i :: 0 <= i < |events| && events[i].id == id ==>
              r[i] == SetField(events[i], field, value)
    ensures forall i :: 0 <= i < |events| && events[i].id != id ==> r[i] == events[i]
  {
    seq(|events|, i requires 0 <= i < |events| =>
      if events[i].id == id then SetField(events[i], field, value) else events[i])
  }

  /** `addEvent()`: one blank event appended. */
  function AddEvent(events: seq<TimelineEvent>, freshId: string): (r: seq<TimelineEvent>)
    ensures |r| == |events| + 1
    ensures r[..|events|] == events
    ensures r[|events|] == EmptyEvent(freshId)
  {
    events + [EmptyEvent(freshId)]
  }

  /** The list without the events carrying `id`: every other event is kept,
      as often as it occurs (`WithoutIdCounts`) and in its order
      (`WithoutIdConcat`). */
  function WithoutId(events: seq<TimelineEvent>, id: string): (r: seq<TimelineEvent>)
    ensures |r| <= |events|
    ensures forall e :: e in r <==> e in events && e.id != id
  {
    if events == [] then []
    else (if events[0].id != id then [events[0]] else []) + WithoutId(events[1..], id)
  }

  /** Every event with another id is kept as often as it occurs; the events
      carrying `id` are all dropped. */
  lemma {:induction false} WithoutIdCounts(events: seq<TimelineEvent>, id: string)
    ensures forall e :: multiset(WithoutId(events, id))[e] == if e.id != id then multiset(events)[e] else 0
  {
    if events != [] {
      WithoutIdCounts(events[1..], id);
      assert events == [events[0]] + events[1..];
      assert WithoutId(events, id) == (if events[0].id != id then [events[0]] else []) + WithoutId(events[1..], id);
    }
  }

  /** Filtering distributes over concatenation, so the kept events stay in
      their original order. */
  lemma {:induction false} WithoutIdConcat(a: seq<TimelineEvent>, b: seq<TimelineEvent>, id: string)
    ensures WithoutId(a + b, id) == WithoutId(a, id) + WithoutId(b, id)
  {
    if a == [] {
      assert a + b == b;
    } else {
      assert (a + b)[1..] == a[1..] + b;
      WithoutIdConcat(a[1..], b, id);
    }
  }

  /** `removeEvent(id)`: a single-event list is kept as it is; otherwise
      every event with that id is dropped. */
  function RemoveEvent(events: seq<TimelineEvent>, id: string): (r: seq<TimelineEvent>)
    ensures |events| == 1 ==> r == events
    ensures |events| != 1 ==> r == WithoutId(events, id)
  {
    if |events| == 1 then events else WithoutId(events, id)
  }

  // ---------------------------------------------------------------------
  // Identifiers and the non-empty list
  // ---------------------------------------------------------------------

  function Ids(events: seq<TimelineEvent>): set<string> {
    set i | 0 <= i < |events| :: events[i].id
  }

  predicate UniqueIds(events: seq<TimelineEvent>) {
    forall i, j :: 0 <= i < j < |events| ==> events[i].id != events[j].id
  }

  /** The first event's id and the later events' ids are all ids of the
      list. */
  lemma IdsOfTail(events: seq<TimelineEvent>)
    requires events != []
    ensures events[0].id in Ids(events)
    ensures Ids(events[1..]) <= Ids(events)
    ensures UniqueIds(events) ==> UniqueIds(events[1..]) && events[0].id !in Ids(events[1..])
  {
    var rest := events[1..];
    assert events[0].id in Ids(events);
    forall x | x in Ids(rest) ensures x in Ids(events) {
      var k :| 0 <= k < |rest| && rest[k].id == x;
      assert events[k + 1].id == x;
    }
    if UniqueIds(events) {
      forall k | 0 <= k < |rest| ensures rest[k].id != events[0].id {
        assert rest[k] == events[k + 1];
      }
    }
  }

  /** An event whose id the rest does not carry can head a list with
      distinct ids. */
  lemma ConsUnique(e: TimelineEvent, rest: seq<TimelineEvent>)
    requires UniqueIds(rest) && e.id !in Ids(rest)
    ensures UniqueIds([e] + rest)
    ensures Ids([e] + rest) == {e.id} + Ids(rest)
  {
    var r := [e] + rest;
    forall i, j | 0 <= i < j < |r| ensures r[i].id != r[j].id {
      assert r[j] == rest[j - 1];
      if i == 0 {
        assert rest[j - 1].id in Ids(rest);
      } else {
        assert r[i] == rest[i - 1];
      }
    }
    forall x | x in Ids(r) ensures x in {e.id} + Ids(rest) {
      var k :| 0 <= k < |r| && r[k].id == x;
      if k > 0 {
        assert r[k] == rest[k - 1];
      }
    }
    forall x | x in {e.id} + Ids(rest) ensures x in Ids(r) {
      if x == e.id {
        assert r[0].id == x;
      } else {
        var k :| 0 <= k < |rest| && rest[k].id == x;
        assert r[k + 1].id == x;
      }
    }
  }

  /** Dropping an id no event carries changes nothing. */
  lemma {:induction false} WithoutAbsentId(events: seq<TimelineEvent>, id: string)
    requires id !in Ids(events)
    ensures WithoutId(events, id) == events
  {
    if events != [] {
      IdsOfTail(events);
      assert events[0].id != id;
      WithoutAbsentId(events[1..], id);
      assert WithoutId(events, id) == [events[0]] + WithoutId(events[1..], id);
      assert [events[0]] + events[1..] == events;
    }
  }

  /** With distinct ids at most one event is dropped. */
  lemma {:induction false} WithoutIdDropsAtMostOne(events: seq<TimelineEvent>, id: string)
    requires UniqueIds(events)
    ensures |WithoutId(events, id)| >= |events| - 1
  {
    if events != [] {
      IdsOfTail(events);
      if events[0].id == id {
        WithoutAbsentId(events[1..], id);
      } else {
        WithoutIdDropsAtMostOne(events[1..], id);
      }
    }
  }

  /** Filtering keeps the ids distinct and adds none. */
  lemma {:induction false} WithoutIdUnique(events: seq<TimelineEvent>, id: string)
    requires UniqueIds(events)
    ensures UniqueIds(WithoutId(events, id))
    ensures Ids(WithoutId(events, id)) <= Ids(events)
  {
    if events != [] {
      var rest := events[1..];
      IdsOfTail(events);
      WithoutIdUnique(rest, id);
      var tail := WithoutId(rest, id);
      if events[0].id != id {
        ConsUnique(events[0], tail);
      } else {
        assert WithoutId(events, id) == tail;
      }
    }
  }

  /** Removing keeps a list with distinct ids non-empty and its ids
      distinct. */
  lemma RemoveKeepsList(events: seq<TimelineEvent>, id: string)
    requires |events| >= 1 && UniqueIds(events)
    ensures |RemoveEvent(events, id)| >= 1
    ensures UniqueIds(RemoveEvent(events, id))
    ensures Ids(RemoveEvent(events, id)) <= Ids(events)
  {
    if |events| != 1 {
      WithoutIdDropsAtMostOne(events, id);
      WithoutIdUnique(events, id);
    }
  }

  /** The non-empty guarantee rests on distinct ids: when two events share
      an id, removing it from a two-event list empties the list. */
  lemma RemoveDuplicateIdEmpties()
    ensures RemoveEvent([EmptyEvent("a"), EmptyEvent("a")], "a") == []
  {
    var events := [EmptyEvent("a"), EmptyEvent("a")];
    assert events[1..] == [EmptyEvent("a")];
    assert events[1..][1..] == [];
  }

  /** Adding an event with a fresh id keeps the ids distinct. */
  lemma AddKeepsList(events: seq<TimelineEvent>, freshId: string)
    requires UniqueIds(events) && freshId !in Ids(events)
    ensures UniqueIds(AddEvent(events, freshId))
    ensures Ids(AddEvent(events, freshId)) == Ids(events) + {freshId}
  {
    var r := AddEvent(events, freshId);
    forall i, j | 0 <= i < j < |r| ensures r[i].id != r[j].id {
      if j == |events| {
        assert r[i] == events[i];
        assert events[i].id in Ids(events);
      } else {
        assert r[i] == events[i] && r[j] == events[j];
      }
    }
    forall x | x in Ids(r) ensures x in Ids(events) + {freshId} {
      var k :| 0 <= k < |r| && r[k].id == x;
      if k < |events| {
        assert r[k] == events[k];
      }
    }
    forall x | x in Ids(events) + {freshId} ensures x in Ids(r) {
      if x == freshId {
        assert r[|events|].id == x;
      } else {
        var k :| 0 <= k < |events| && events[k].id == x;
        assert r[k].id == x;
      }
    }
  }

  /** Updating any field but the id leaves every id where it was. */
  lemma UpdateKeepsList(events: seq<TimelineEvent>, id: string, field: EventField, value: string)
    requires field != IdField
    ensures forall i :: 0 <= i < |events| ==> UpdateEvent(events, id, field, value)[i].id == events[i].id
    ensures UniqueIds(events) ==> UniqueIds(UpdateEvent(events, id, field, value))
    ensures Ids(UpdateEvent(events, id, field, value)) == Ids(events)
  {
    var r := UpdateEvent(events, id, field, value);
    forall i | 0 <= i < |events| ensures r[i].id == events[i].id {
      SetFieldFrame(events[i], field, value, IdField);
    }
    assert forall x :: x in Ids(r) <==> x in Ids(events) by {
      forall x ensures x in Ids(r) <==> x in Ids(events) {
        if x in Ids(r) {
          var k :| 0 <= k < |r| && r[k].id == x;
          assert events[k].id == x;
        }
        if x in Ids(events) {
          var k :| 0 <= k < |events| && events[k].id == x;
          assert r[k].id == x;
        }
      }
    }
  }

  // ---------------------------------------------------------------------
  // Editing sessions
  // ---------------------------------------------------------------------

  /** One user action on the list. */
  datatype Edit =
    | Add(freshId: string)
    | Remove(id: string)
    | Update(id: string, field: EventField, value: string)

  function ApplyEdit(events: seq<TimelineEvent>, edit: Edit): seq<TimelineEvent> {
    match edit
    case Add(freshId) => AddEvent(events, freshId)
    case Remove(id) => RemoveEvent(events, id)
    case Update(id, field, value) => UpdateEvent(events, id, field, value)
  }

  function ApplyEdits(events: seq<TimelineEvent>, edits: seq<Edit>): seq<TimelineEvent>
    decreases |edits|
  {
    if edits == [] then events else ApplyEdits(ApplyEdit(events, edits[0]), edits[1..])
  }

  /** Every added event gets an id never used before, where `used` holds the
      ids seen so far; no edit rewrites an id. The editor's form only
      offers the other fields, and new ids are random UUIDs. */
  predicate FreshEdits(edits: seq<Edit>, used: set<string>)
    decreases |edits|
  {
    if edits == [] then true
    else match edits[0]
      case Add(freshId) => freshId !in used && FreshEdits(edits[1..], used + {freshId})
      case Remove(_) => FreshEdits(edits[1..], used)
      case Update(_, field, _) => field != IdField && FreshEdits(edits[1..], used)
  }

  /** Over any editing session with fresh ids, the list stays non-empty and
      its ids stay distinct. */
  lemma {:induction false} EditsKeepList(events: seq<TimelineEvent>, edits: seq<Edit>, used: set<string>)
    requires |events| >= 1 && UniqueIds(events) && Ids(events) <= used
    requires FreshEdits(edits, used)
    ensures |ApplyEdits(events, edits)| >= 1
    ensures UniqueIds(ApplyEdits(events, edits))
    decreases |edits|
  {
    if edits != [] {
      var next := ApplyEdit(events, edits[0]);
      match edits[0]
      case Add(freshId) =>
        AddKeepsList(events, freshId);
        EditsKeepList(next, edits[1..], used + {freshId});
      case Remove(id) =>
        RemoveKeepsList(events, id);
        EditsKeepList(next, edits[1..], used);
      case Update(id, field, value) =>
        UpdateKeepsList(events, id, field, value);
        EditsKeepList(next, edits[1..], used);
    }
  }

  /** The editor's starting list has distinct ids when the stored timeline
      does. */
  lemma InitialKeepsList(stored: seq<TimelineEvent>, freshId: string)
    requires UniqueIds(stored)
    ensures UniqueIds(InitialEvents(stored, freshId))
    ensures stored == [] ==> Ids(InitialEvents(stored, freshId)) == {freshId}
  {
    if stored == [] {
      var r := InitialEvents(stored, freshId);
      assert r[0].id == freshId;
    }
  }

  // ---------------------------------------------------------------------
  // Clean-up before saving
  // ---------------------------------------------------------------------

  /** An event survives the clean-up when its trimmed title is non-empty and
      its date is non-empty (the date is not trimmed). */
  predicate Keep(e: TimelineEvent) {
    Trim(e.title) != "" && e.date != ""
  }

  /** Trimmed title and description; notes and image URL trimmed, or empty
      when absent; id and date untouched. */
  function Clean(e: TimelineEvent): (c: TimelineEvent)
    ensures c.id == e.id && c.date == e.date
    ensures c.title == Trim(e.title) && c.description == Trim(e.description)
    ensures c.notes == Some(Trim(e.notes.GetOr(""))) && c.imageUrl == Some(Trim(e.imageUrl.GetOr("")))
  {
    e.(title := Trim(e.title),
       description := Trim(e.description),
       notes := Some(Trim(e.notes.GetOr(""))),
       imageUrl := Some(Trim(e.imageUrl.GetOr(""))))
  }

  /** A saved event: title and date present, every text field trimmed and
      both optional fields present. */
  predicate IsClean(e: TimelineEvent) {
    && e.title != "" && e.date != ""
    && Trimmed(e.title) && Trimmed(e.description)
    && e.notes.Some? && Trimmed(e.notes.value)
    && e.imageUrl.Some? && Trimmed(e.imageUrl.value)
  }

  /** What the clean-up makes of one event. */
  function SanitizeOne(e: TimelineEvent): (r: seq<TimelineEvent>)
    ensures |r| <= 1
  {
    if Keep(e) then [Clean(e)] else []
  }

  /** The clean-up in `saveTimeline`: kept events, cleaned, in order. */
  function Sanitize(events: seq<TimelineEvent>): (r: seq<TimelineEvent>)
    ensures |r| <= |events|
  {
    if events == [] then [] else SanitizeOne(events[0]) + Sanitize(events[1..])
  }

  /** A kept event comes out clean and still kept. */
  lemma CleanIsClean(e: TimelineEvent)
    requires Keep(e)
    ensures IsClean(Clean(e)) && Keep(Clean(e))
  {
    TrimmedFixed(e.title);
    TrimmedFixed(Trim(e.title));
    TrimmedFixed(e.description);
    TrimmedFixed(e.notes.GetOr(""));
    TrimmedFixed(e.imageUrl.GetOr(""));
  }

  /** A clean event is kept and cleaning leaves it as it is. */
  lemma CleanFixesClean(e: TimelineEvent)
    requires IsClean(e)
    ensures Keep(e) && Clean(e) == e
  {
    TrimmedFixed(e.title);
    TrimmedFixed(e.description);
    TrimmedFixed(e.notes.value);
    TrimmedFixed(e.imageUrl.value);
  }

  predicate AllClean(events: seq<TimelineEvent>) {
    forall i :: 0 <= i < |events| ==> IsClean(events[i])
  }

  lemma AllCleanConcat(a: seq<TimelineEvent>, b: seq<TimelineEvent>)
    requires AllClean(a) && AllClean(b)
    ensures AllClean(a + b)
  {
    forall i | 0 <= i < |a + b| ensures IsClean((a + b)[i]) {
      if i < |a| {
        assert (a + b)[i] == a[i];
      } else {
        assert (a + b)[i] == b[i - |a|];
      }
    }
  }

  /** What the clean-up makes of one event is clean. */
  lemma SanitizeOneClean(e: TimelineEvent)
    ensures AllClean(SanitizeOne(e))
  {
    if Keep(e) {
      CleanIsClean(e);
    }
  }

  /** Every saved event is clean. */
  lemma {:induction false} SanitizeClean(events: seq<TimelineEvent>)
    ensures AllClean(Sanitize(events))
  {
    if events != [] {
      SanitizeClean(events[1..]);
      SanitizeOneClean(events[0]);
      AllCleanConcat(SanitizeOne(events[0]), Sanitize(events[1..]));
    }
  }

  /** The clean-up distributes over concatenation: each event is kept or
      dropped on its own and the kept ones keep their order. */
  lemma {:induction false} SanitizeConcat(a: seq<TimelineEvent>, b: seq<TimelineEvent>)
    ensures Sanitize(a + b) == Sanitize(a) + Sanitize(b)
  {
    if a == [] {
      assert a + b == b;
    } else {
      var h := SanitizeOne(a[0]);
      assert (a + b)[0] == a[0];
      assert (a + b)[1..] == a[1..] + b;
      assert Sanitize(a + b) == h + Sanitize(a[1..] + b);
      SanitizeConcat(a[1..], b);
      assert h + (Sanitize(a[1..]) + Sanitize(b)) == (h + Sanitize(a[1..])) + Sanitize(b);
    }
  }

  /** A single event is saved, cleaned, exactly when it is kept. */
  lemma SanitizeSingle(e: TimelineEvent)
    ensures Keep(e) ==> Sanitize([e]) == [Clean(e)]
    ensures !Keep(e) ==> Sanitize([e]) == []
  {
    assert [e][1..] == [];
    assert Sanitize([e]) == SanitizeOne(e) + [];
  }

  /** Cleaning twice is cleaning once. */
  lemma {:induction false} SanitizeIdempotent(events: seq<TimelineEvent>)
    ensures Sanitize(Sanitize(events)) == Sanitize(events)
  {
    if events != [] {
      var head := SanitizeOne(events[0]);
      var rest := Sanitize(events[1..]);
      SanitizeIdempotent(events[1..]);
      SanitizeConcat(head, rest);
      if Keep(events[0]) {
        CleanIsClean(events[0]);
        CleanFixesClean(Clean(events[0]));
        SanitizeSingle(Clean(events[0]));
      } else {
        assert head + rest == rest;
      }
    }
  }
}
