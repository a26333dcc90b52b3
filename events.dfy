/** The `Event` record of the event context and the pure list computations behind
    `addEvent` (spread-append), `updateEvent` (`map` with a spread merge),
    `deleteEvent` and `getEventsForDate` (`filter`). The stateful provider that
    applies them is `EventStore.Store`. */
module Events {
  import opened Wrappers

  /** One calendar item. `date` is a `yyyy-MM-dd` day key, `time` an `HH:MM` string,
      `userId` the owner's uid. */
  datatype Event = Event(
    id: string,
    title: string,
    description: string,
    date: string,
    time: string,
    userId: string)

  /** `Omit<Event, "id">`: what a caller hands to `addEvent`. */
  datatype Draft = Draft(
    title: string,
    description: string,
    date: string,
    time: string,
    userId: string)

  /** `Partial<Event>`: every field may be present (`Some`) or absent (`None`). */
  datatype Patch = Patch(
    id: Option<string>,
    title: Option<string>,
    description: Option<string>,
    date: Option<string>,
    time: Option<string>,
    userId: Option<string>)

  /** The patch with no field present. */
  const EmptyPatch := Patch(None, None, None, None, None, None)

  /** The six field names of an event, so that statements about "every field" can be
      made once. */
  datatype FieldName = IdField | TitleField | DescriptionField | DateField | TimeField | UserIdField

  function Field(e: Event, k: FieldName): string {
    match k
    case IdField => e.id
    case TitleField => e.title
    case DescriptionField => e.description
    case DateField => e.date
    case TimeField => e.time
    case UserIdField => e.userId
  }

  function PatchField(p: Patch, k: FieldName): Option<string> {
    match k
    case IdField => p.id
    case TitleField => p.title
    case DescriptionField => p.description
    case DateField => p.date
    case TimeField => p.time
    case UserIdField => p.userId
  }

  // ---------------------------------------------------------------------------
  // Generic list combinators: Array.prototype.map and Array.prototype.filter
  // ---------------------------------------------------------------------------

  /** `s.map(f)`. */
  function MapSeq<T, U>(s: seq<T>, f: T -> U): (r: seq<U>)
    ensures |r| == |s|
    ensures forall i :: 0 <= i < |s| ==> r[i] == f(s[i])
  {
    if s == [] then [] else [f(s[0])] + MapSeq(s[1..], f)
  }

  /** `s.filter(keep)`: exactly the elements satisfying `keep`. */
  function Filter<T>(s: seq<T>, keep: T -> bool): (r: seq<T>)
    ensures |r| <= |s|
    ensures forall i :: 0 <= i < |r| ==> r[i] in s && keep(r[i])
    ensures forall i :: 0 <= i < |s| && keep(s[i]) ==> s[i] in r
  {
    if s == [] then []
    else if keep(s[0]) then [s[0]] + Filter(s[1..], keep)
    else Filter(s[1..], keep)
  }

  /** `r` is obtained from `s` by dropping some elements, keeping the order of the rest. */
  predicate IsSubsequence<T(==)>(r: seq<T>, s: seq<T>)
    decreases |s|
  {
    r == [] || (s != [] && ((r[0] == s[0] && IsSubsequence(r[1..], s[1..])) || IsSubsequence(r, s[1..])))
  }

  /** Filtering distributes over concatenation: the relative order of kept elements is
      the order of the input. */
  lemma {:induction false} FilterConcat<T>(a: seq<T>, b: seq<T>, keep: T -> bool)
    ensures Filter(a + b, keep) == Filter(a, keep) + Filter(b, keep)
  {
    if a == [] {
      assert a + b == b;
    } else {
      assert (a + b)[0] == a[0] && (a + b)[1..] == a[1..] + b;
      FilterConcat(a[1..], b, keep);
      if keep(a[0]) {
        assert Filter(a + b, keep) == [a[0]] + (Filter(a[1..], keep) + Filter(b, keep));
      }
    }
  }

  /** The result of a filter is an order-preserving subsequence of its input. */
  lemma {:induction false} FilterIsSubsequence<T>(s: seq<T>, keep: T -> bool)
    ensures IsSubsequence(Filter(s, keep), s)
  {
    if s != [] {
      FilterIsSubsequence(s[1..], keep);
      if keep(s[0]) {
        assert Filter(s, keep)[1..] == Filter(s[1..], keep);
      }
    }
  }

  /** A filter keeps every copy of a kept value and no copy of a dropped one. */
  lemma {:induction false} FilterMultiplicity<T>(s: seq<T>, keep: T -> bool, x: T)
    ensures multiset(Filter(s, keep))[x] == if keep(x) then multiset(s)[x] else 0
  {
    if s != [] {
      FilterMultiplicity(s[1..], keep, x);
      assert s == [s[0]] + s[1..];
    }
  }

  /** A filter that keeps everything is the identity. */
  lemma {:induction false} FilterKeepAll<T>(s: seq<T>, keep: T -> bool)
    requires forall i :: 0 <= i < |s| ==> keep(s[i])
    ensures Filter(s, keep) == s
  {
    if s != [] {
      FilterKeepAll(s[1..], keep);
    }
  }

  /** Filtering twice by the same condition is filtering once. */
  lemma FilterIdempotent<T>(s: seq<T>, keep: T -> bool)
    ensures Filter(Filter(s, keep), keep) == Filter(s, keep)
  {
    var r := Filter(s, keep);
    FilterKeepAll(r, keep);
  }

  // ---------------------------------------------------------------------------
  // The store's operations on the list, as pure functions
  // ---------------------------------------------------------------------------

  /** The entries that `updateEvent(id, _)` and `deleteEvent(id)` act on when `uid`
      is logged in. */
  predicate Targets(e: Event, id: string, uid: string) {
    e.id == id && e.userId == uid
  }

  /** `{ ...event, ...patch }`: each field present in the patch wins. */
  function Merge(e: Event, p: Patch): Event {
    Event(
      p.id.GetOr(e.id),
      p.title.GetOr(e.title),
      p.description.GetOr(e.description),
      p.date.GetOr(e.date),
      p.time.GetOr(e.time),
      p.userId.GetOr(e.userId))
  }

  /** The merge takes every field present in the patch and keeps every other one;
      `id` and `userId` are not shielded. */
  lemma MergeFields(e: Event, p: Patch)
    ensures forall k :: Field(Merge(e, p), k) == (if PatchField(p, k).Some? then PatchField(p, k).value else Field(e, k))
  {
    forall k ensures Field(Merge(e, p), k) == (if PatchField(p, k).Some? then PatchField(p, k).value else Field(e, k)) {
      match k
      case IdField =>
      case TitleField =>
      case DescriptionField =>
      case DateField =>
      case TimeField =>
      case UserIdField =>
    }
  }

  /** The event that `addEvent` builds: `{ ...draft, userId: uid, id: freshId }`. */
  function Created(d: Draft, uid: string, freshId: string): Event {
    Event(freshId, d.title, d.description, d.date, d.time, uid)
  }

  /** `[...prev, newEvent]`. */
  function Appended(s: seq<Event>, d: Draft, uid: string, freshId: string): (r: seq<Event>)
    ensures |r| == |s| + 1 && r[..|s|] == s
    ensures r[|s|].id == freshId && r[|s|].userId == uid
    ensures r[|s|].title == d.title && r[|s|].description == d.description
    ensures r[|s|].date == d.date && r[|s|].time == d.time
  {
    s + [Created(d, uid, freshId)]
  }

  /** `prev.map(e => e.id === id && e.userId === uid ? { ...e, ...p } : e)`. */
  function Updated(s: seq<Event>, id: string, uid: string, p: Patch): (r: seq<Event>)
    ensures |r| == |s|
    ensures forall i :: 0 <= i < |s| && !Targets(s[i], id, uid) ==> r[i] == s[i]
    ensures forall i :: 0 <= i < |s| && Targets(s[i], id, uid) ==> r[i] == Merge(s[i], p)
  {
    MapSeq(s, (e: Event) => if Targets(e, id, uid) then Merge(e, p) else e)
  }

  /** The filter condition of `deleteEvent`, in the source's two steps: an entry with
      the id but another owner is kept; otherwise an entry is kept iff its id differs. */
  predicate KeptOnDelete(e: Event, id: string, uid: string) {
    if e.id == id && e.userId != uid then true else e.id != id
  }

  /** `prev.filter(KeptOnDelete)`. */
  function Deleted(s: seq<Event>, id: string, uid: string): (r: seq<Event>)
    ensures forall e :: e in r <==> e in s && !Targets(e, id, uid)
  {
    Filter(s, (e: Event) => KeptOnDelete(e, id, uid))
  }

  /** `events.filter(e => e.date === date && e.userId === uid)`. */
  function ForDate(s: seq<Event>, date: string, uid: string): (r: seq<Event>)
    ensures forall e :: e in r <==> e in s && e.date == date && e.userId == uid
  {
    Filter(s, (e: Event) => e.date == date && e.userId == uid)
  }

  /** `getEventsForDate(date)` with the logged-in user (or none). */
  function Query(s: seq<Event>, user: Option<string>, date: string): (r: seq<Event>)
    ensures user.None? ==> r == []
  {
    match user
    case None => []
    case Some(uid) => ForDate(s, date, uid)
  }

  /** Every entry belongs to `uid`. */
  predicate OwnedBy(s: seq<Event>, uid: string) {
    forall i :: 0 <= i < |s| ==> s[i].userId == uid
  }

  // ---------------------------------------------------------------------------
  // Properties of addEvent
  // ---------------------------------------------------------------------------

  /** The owner of a new event is the logged-in user, whatever `userId` the caller
      put in the draft. */
  lemma AppendedIgnoresDraftOwner(s: seq<Event>, d: Draft, other: string, uid: string, freshId: string)
    ensures Appended(s, d, uid, freshId) == Appended(s, d.(userId := other), uid, freshId)
  {
  }

  /** After an add, the query for the new event's day and owner returns what it
      returned before followed by the new event; other owners see no change. */
  lemma {:induction false} AddThenQuery(s: seq<Event>, d: Draft, uid: string, freshId: string, viewer: string)
    ensures ForDate(Appended(s, d, uid, freshId), d.date, viewer)
         == ForDate(s, d.date, viewer) + (if viewer == uid then [Created(d, uid, freshId)] else [])
  {
    var keep := (e: Event) => e.date == d.date && e.userId == viewer;
    FilterConcat(s, [Created(d, uid, freshId)], keep);
  }

  /** Adding keeps a list owned by the logged-in user owned by that user. */
  lemma AppendedOwned(s: seq<Event>, d: Draft, uid: string, freshId: string)
    requires OwnedBy(s, uid)
    ensures OwnedBy(Appended(s, d, uid, freshId), uid)
  {
  }

  // ---------------------------------------------------------------------------
  // Properties of updateEvent
  // ---------------------------------------------------------------------------

  /** With no entry carrying both the id and the owner, an update changes nothing
      (this covers an id that belongs to another user). */
  lemma UpdatedNoTarget(s: seq<Event>, id: string, uid: string, p: Patch)
    requires forall i :: 0 <= i < |s| ==> !Targets(s[i], id, uid)
    ensures Updated(s, id, uid, p) == s
  {
  }

  /** A patch that carries only a title changes only the title of the targeted entries. */
  lemma UpdateTitleOnly(s: seq<Event>, id: string, uid: string, title: string)
    ensures var r := Updated(s, id, uid, EmptyPatch.(title := Some(title)));
      forall i :: 0 <= i < |s| ==>
        && r[i].title == (if Targets(s[i], id, uid) then title else s[i].title)
        && r[i].id == s[i].id && r[i].description == s[i].description
        && r[i].date == s[i].date && r[i].time == s[i].time && r[i].userId == s[i].userId
  {
  }

  /** A patch without `id` and `userId` (the only kind the event form sends) leaves
      every entry's id and owner as they were, so ownership is preserved. */
  lemma UpdatedKeepsIdentity(s: seq<Event>, id: string, uid: string, p: Patch)
    requires p.id.None? && p.userId.None?
    ensures var r := Updated(s, id, uid, p);
      forall i :: 0 <= i < |s| ==> r[i].id == s[i].id && r[i].userId == s[i].userId
  {
  }

  /** As written the merge does not shield `userId`: a patch naming another owner
      moves the targeted entry out of the current user's list. */
  lemma UpdatedCanReassignOwner(s: seq<Event>, id: string, uid: string, other: string)
    ensures var r := Updated(s, id, uid, EmptyPatch.(userId := Some(other)));
      forall i :: 0 <= i < |s| && Targets(s[i], id, uid) ==> r[i].userId == other
    ensures var r := Updated(s, id, uid, EmptyPatch.(userId := Some(other)));
      other != uid && (exists i :: 0 <= i < |s| && Targets(s[i], id, uid)) ==> !OwnedBy(r, uid)
  {
  }

  /** An update whose patch names no owner, or the user's own uid, keeps a list owned
      by the user owned by the user. */
  lemma UpdatedOwned(s: seq<Event>, id: string, uid: string, p: Patch)
    requires OwnedBy(s, uid)
    requires p.userId.None? || p.userId == Some(uid)
    ensures OwnedBy(Updated(s, id, uid, p), uid)
  {
  }

  // ---------------------------------------------------------------------------
  // Properties of deleteEvent
  // ---------------------------------------------------------------------------

  /** The source's two-step condition keeps exactly the entries that are not targets. */
  lemma KeptOnDeleteIffNotTarget(e: Event, id: string, uid: string)
    ensures KeptOnDelete(e, id, uid) <==> !Targets(e, id, uid)
  {
  }

  /** Delete removes every copy of each target and keeps every copy of every other
      entry, in the original order. */
  lemma DeletedExactly(s: seq<Event>, id: string, uid: string, e: Event)
    ensures IsSubsequence(Deleted(s, id, uid), s)
    ensures multiset(Deleted(s, id, uid))[e] == if Targets(e, id, uid) then 0 else multiset(s)[e]
  {
    var keep := (x: Event) => KeptOnDelete(x, id, uid);
    FilterIsSubsequence(s, keep);
    FilterMultiplicity(s, keep, e);
  }

  /** An entry with the target id but another owner survives the delete. */
  lemma DeleteKeepsForeignOwner(s: seq<Event>, id: string, uid: string, i: nat)
    requires i < |s| && s[i].id == id && s[i].userId != uid
    ensures s[i] in Deleted(s, id, uid)
  {
  }

  /** With no target present, delete is the identity (as when the id is owned by
      another user). */
  lemma DeletedNoTarget(s: seq<Event>, id: string, uid: string)
    requires forall i :: 0 <= i < |s| ==> !Targets(s[i], id, uid)
    ensures Deleted(s, id, uid) == s
  {
    FilterKeepAll(s, (e: Event) => KeptOnDelete(e, id, uid));
  }

  /** Deleting twice is deleting once. */
  lemma DeleteIdempotent(s: seq<Event>, id: string, uid: string)
    ensures Deleted(Deleted(s, id, uid), id, uid) == Deleted(s, id, uid)
  {
    FilterIdempotent(s, (e: Event) => KeptOnDelete(e, id, uid));
  }

  /** Deleting keeps a list owned by the logged-in user owned by that user. */
  lemma DeletedOwned(s: seq<Event>, id: string, uid: string)
    requires OwnedBy(s, uid)
    ensures OwnedBy(Deleted(s, id, uid), uid)
  {
    var r := Deleted(s, id, uid);
    forall i | 0 <= i < |r| ensures r[i].userId == uid {
      assert r[i] in r;
    }
  }

  // ---------------------------------------------------------------------------
  // Properties of getEventsForDate
  // ---------------------------------------------------------------------------

  /** The query returns, in list order, every copy of each entry of that day and
      owner and nothing else. */
  lemma ForDateExactly(s: seq<Event>, date: string, uid: string, e: Event)
    ensures IsSubsequence(ForDate(s, date, uid), s)
    ensures multiset(ForDate(s, date, uid))[e] == if e.date == date && e.userId == uid then multiset(s)[e] else 0
  {
    var keep := (x: Event) => x.date == date && x.userId == uid;
    FilterIsSubsequence(s, keep);
    FilterMultiplicity(s, keep, e);
  }

  /** The sample session: a stand-up added for "u1" on 2024-03-05 is the only event
      "u1" sees that day, and "u2" sees nothing. */
  lemma StandupScenario(freshId: string)
    ensures var s := Appended([], Draft("Standup", "", "2024-03-05", "09:30", "u1"), "u1", freshId);
      && Query(s, Some("u1"), "2024-03-05") == [Event(freshId, "Standup", "", "2024-03-05", "09:30", "u1")]
      && Query(s, Some("u2"), "2024-03-05") == []
  {
    var d := Draft("Standup", "", "2024-03-05", "09:30", "u1");
    AddThenQuery([], d, "u1", freshId, "u1");
    AddThenQuery([], d, "u1", freshId, "u2");
  }
}
